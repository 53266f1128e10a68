/** Concurrent dispatch requests over one store, each store access a step of its own. The
    unique index on the run's request id is what makes a repeated key harmless. */
module Dispatch {
  import opened Wrappers

  /** A request that names its repositories; one that names none is only proposed. */
  datatype Request = Request(key: string, repos: seq<string>, change: string)

  /** A key that was omitted is stored as NULL, which the index never refuses. */
  datatype RunRow = RunRow(key: Option<string>, change: string)

  /** An intent is named after the run that opened it. */
  datatype Bullet = Bullet(intent: nat, repo: string, position: nat)

  datatype Phase =
    | Claiming | Opening | Writing(next: nat) | Losing | Reading(run: nat)
    | Answered(run: nat) | Refused

  datatype Handler = Handler(req: Request, at: Phase)

  /** A handler's number is the run id it minted. */
  datatype Sys = Sys(runs: map<nat, RunRow>, intents: set<nat>, bullets: seq<Bullet>, handlers: map<nat, Handler>)

  const EMPTY_SYS := Sys(map[], {}, [], map[])

  datatype Step =
    | Arrive(id: nat, req: Request)
    | Go(id: nat, row: nat, resolves: bool)

  // ---- the key

  predicate IsSpace(c: char) {
    || '\t' <= c <= '\r' || c == ' ' || c == '\U{85}' || c == '\U{A0}' || c == '\U{1680}'
    || '\U{2000}' <= c <= '\U{200A}' || c == '\U{2028}' || c == '\U{2029}' || c == '\U{202F}'
    || c == '\U{205F}' || c == '\U{3000}'
  }

  function TrimLeft(s: string): string {
    if s != "" && IsSpace(s[0]) then TrimLeft(s[1..]) else s
  }

  function TrimRight(s: string): string {
    if s != "" && IsSpace(s[|s| - 1]) then TrimRight(s[..|s| - 1]) else s
  }

  function TrimSpace(s: string): string {
    TrimRight(TrimLeft(s))
  }

  lemma {:induction false} TrimRightMeans(s: string)
    ensures var t := TrimRight(s);
      && t <= s && (t != "" ==> !IsSpace(t[|t| - 1]))
      && (s != "" && !IsSpace(s[0]) ==> t != "" && t[0] == s[0])
  {
    if s != "" && IsSpace(s[|s| - 1]) {
      TrimRightMeans(s[..|s| - 1]);
    }
  }

  lemma {:induction false} TrimLeftMeans(s: string)
    ensures var t := TrimLeft(s);
      t != "" ==> !IsSpace(t[0])
  {
    if s != "" && IsSpace(s[0]) {
      TrimLeftMeans(s[1..]);
    }
  }

  predicate AllSpace(s: string) {
    forall i :: 0 <= i < |s| ==> IsSpace(s[i])
  }

  lemma {:induction false} TrimLeftDrops(s: string) returns (front: string)
    ensures AllSpace(front) && s == front + TrimLeft(s)
  {
    if s != "" && IsSpace(s[0]) {
      var rest := TrimLeftDrops(s[1..]);
      front := [s[0]] + rest;
    } else {
      front := "";
    }
  }

  lemma {:induction false} TrimRightDrops(s: string) returns (back: string)
    ensures AllSpace(back) && s == TrimRight(s) + back
  {
    if s != "" && IsSpace(s[|s| - 1]) {
      var rest := TrimRightDrops(s[..|s| - 1]);
      back := rest + [s[|s| - 1]];
    } else {
      back := "";
    }
  }

  /** Trimming takes white space off both ends, all of it and nothing else. */
  lemma TrimMeans(s: string) returns (front: string, back: string)
    ensures AllSpace(front) && AllSpace(back) && s == front + TrimSpace(s) + back
    ensures TrimSpace(s) != "" ==> !IsSpace(TrimSpace(s)[0]) && !IsSpace(TrimSpace(s)[|TrimSpace(s)| - 1])
  {
    front := TrimLeftDrops(s);
    back := TrimRightDrops(TrimLeft(s));
    TrimLeftMeans(s);
    TrimRightMeans(TrimLeft(s));
    assert front + (TrimSpace(s) + back) == front + TrimSpace(s) + back;
  }

  /** A request has no key exactly when what it sent is blank. */
  lemma KeylessIff(req: Request)
    ensures KeyOf(req).None? <==> AllSpace(req.key)
    ensures KeyOf(req).Some? ==> KeyOf(req).value == TrimSpace(req.key)
  {
    TrimTwice(req.key);
    var front, back := TrimMeans(req.key);
    var t := TrimSpace(req.key);
    if t != "" {
      assert req.key[|front|] == t[0];
    }
  }

  /** The handler trims the key and the store trims it again, to the same key. */
  lemma TrimTwice(s: string)
    ensures TrimSpace(TrimSpace(s)) == TrimSpace(s)
  {
    var t := TrimSpace(s);
    TrimLeftMeans(s);
    TrimRightMeans(TrimLeft(s));
    assert TrimLeft(t) == t;
    assert TrimRight(t) == t;
  }

  function KeyOf(req: Request): Option<string> {
    if TrimSpace(TrimSpace(req.key)) == "" then None else Some(TrimSpace(TrimSpace(req.key)))
  }

  predicate Taken(runs: map<nat, RunRow>, key: Option<string>) {
    key.Some? && exists r :: r in runs && runs[r].key == key
  }

  // ---- the handlers

  function At(s: Sys, id: nat, at: Phase): Sys
    requires id in s.handlers
  {
    s.(handlers := s.handlers[id := s.handlers[id].(at := at)])
  }

  function Goes(s: Sys, id: nat, row: nat, resolves: bool): Sys
    requires id in s.handlers
  {
    var h := s.handlers[id];
    var key := KeyOf(h.req);
    match h.at
    case Claiming =>
      if Taken(s.runs, key) then At(s, id, Losing)
      else At(s.(runs := s.runs[id := RunRow(key, h.req.change)]), id, Opening)
    case Opening => At(s.(intents := s.intents + {id}), id, Writing(0))
    case Writing(next) =>
      if next < |h.req.repos|
      then At(s.(bullets := s.bullets + [Bullet(id, h.req.repos[next], next + 1)]), id, Writing(next + 1))
      else At(s, id, Answered(id))
    case Losing =>
      if !Taken(s.runs, key) then At(s, id, Refused)
      else if row in s.runs && s.runs[row].key == key then At(s, id, Reading(row))
      else s
    case Reading(run) =>
      if run in s.runs && (s.runs[run].change == h.req.change || resolves) then At(s, id, Answered(run))
      else At(s, id, Refused)
    case Answered(_) => s
    case Refused => s
  }

  function Next(s: Sys, step: Step): Sys {
    match step
    case Arrive(id, req) =>
      if id in s.handlers then s else s.(handlers := s.handlers[id := Handler(req, Claiming)])
    case Go(id, row, resolves) => if id in s.handlers then Goes(s, id, row, resolves) else s
  }

  function Run(steps: seq<Step>): Sys {
    if steps == [] then EMPTY_SYS else Next(Run(steps[..|steps| - 1]), steps[|steps| - 1])
  }

  // ---- what every reachable state keeps

  function BulletsOf(bullets: seq<Bullet>, intent: nat): seq<Bullet> {
    if bullets == [] then []
    else
      var last := bullets[|bullets| - 1];
      BulletsOf(bullets[..|bullets| - 1], intent) + if last.intent == intent then [last] else []
  }

  /** One bullet for each of the first repositories, numbered from one in target order. */
  function Planned(intent: nat, repos: seq<string>, count: nat): seq<Bullet>
    requires count <= |repos|
  {
    seq(count, i requires 0 <= i < count => Bullet(intent, repos[i], i + 1))
  }

  predicate Owns(at: Phase, id: nat) {
    at.Opening? || at.Writing? || at == Answered(id)
  }

  /** What a request has written so far. */
  ghost predicate HandlerOk(s: Sys, id: nat, h: Handler) {
    match h.at
    case Claiming => id !in s.runs && id !in s.intents && BulletsOf(s.bullets, id) == []
    case Opening => id in s.runs && id !in s.intents && BulletsOf(s.bullets, id) == []
    case Writing(next) =>
      && id in s.runs && id in s.intents && next <= |h.req.repos|
      && BulletsOf(s.bullets, id) == Planned(id, h.req.repos, next)
    case Losing => Lost(s, id) && Taken(s.runs, KeyOf(h.req))
    case Reading(run) => Lost(s, id) && Serves(s, run, h.req)
    case Answered(run) =>
      if run == id
      then id in s.runs && id in s.intents && BulletsOf(s.bullets, id) == Planned(id, h.req.repos, |h.req.repos|)
      else Lost(s, id) && Serves(s, run, h.req)
    case Refused => Lost(s, id) && Taken(s.runs, KeyOf(h.req))
  }

  ghost predicate Lost(s: Sys, id: nat) {
    id !in s.runs && id !in s.intents && BulletsOf(s.bullets, id) == []
  }

  ghost predicate Serves(s: Sys, run: nat, req: Request) {
    KeyOf(req).Some? && run in s.runs && s.runs[run].key == KeyOf(req)
  }

  ghost predicate Inv(s: Sys) {
    && (forall id :: id in s.handlers ==> HandlerOk(s, id, s.handlers[id]))
    && (forall id :: id in s.runs ==> id in s.handlers && Owns(s.handlers[id].at, id) && s.runs[id] == RunRow(KeyOf(s.handlers[id].req), s.handlers[id].req.change))
    && (forall id :: id in s.intents ==> id in s.runs)
    && (forall b :: b in s.bullets ==> b.intent in s.runs)
    && (forall r1, r2 :: r1 in s.runs && r2 in s.runs && r1 != r2 && s.runs[r1].key.Some? ==> s.runs[r1].key != s.runs[r2].key)
  }

  lemma {:induction false} NoBulletsOf(bullets: seq<Bullet>, intent: nat)
    ensures BulletsOf(bullets, intent) == [] <==> forall b :: b in bullets ==> b.intent != intent
  {
    if bullets != [] {
      NoBulletsOf(bullets[..|bullets| - 1], intent);
      assert bullets == bullets[..|bullets| - 1] + [bullets[|bullets| - 1]];
    }
  }

  lemma BulletAdded(bullets: seq<Bullet>, b: Bullet, intent: nat)
    ensures BulletsOf(bullets + [b], intent) == BulletsOf(bullets, intent) + if b.intent == intent then [b] else []
  {
    assert (bullets + [b])[..|bullets|] == bullets;
  }

  /** Another request's writes do not show in what this one has written. */
  lemma OthersKeep(s: Sys, s': Sys, id: nat, h: Handler)
    requires HandlerOk(s, id, h)
    requires id in s.runs <==> id in s'.runs
    requires id in s.intents <==> id in s'.intents
    requires BulletsOf(s.bullets, id) == BulletsOf(s'.bullets, id)
    requires forall r :: r in s.runs ==> r in s'.runs && s'.runs[r] == s.runs[r]
    ensures HandlerOk(s', id, h)
  {
    if Taken(s.runs, KeyOf(h.req)) {
      var r :| r in s.runs && s.runs[r].key == KeyOf(h.req);
      assert r in s'.runs && s'.runs[r].key == KeyOf(h.req);
    }
  }

  lemma ArriveKeeps(s: Sys, id: nat, req: Request)
    requires Inv(s) && id !in s.handlers
    ensures Inv(Next(s, Arrive(id, req)))
  {
    NoBulletsOf(s.bullets, id);
    var s' := Next(s, Arrive(id, req));
    forall n | n in s'.handlers ensures HandlerOk(s', n, s'.handlers[n]) {
      if n != id {
        OthersKeep(s, s', n, s.handlers[n]);
      }
    }
  }

  /** Claiming a key takes it: only the first insert of a key gets a run. */
  lemma ClaimKeeps(s: Sys, id: nat, row: nat, resolves: bool)
    requires Inv(s) && id in s.handlers && s.handlers[id].at == Claiming
    ensures Inv(Goes(s, id, row, resolves))
  {
    var s' := Goes(s, id, row, resolves);
    forall n | n in s'.handlers ensures HandlerOk(s', n, s'.handlers[n]) {
      if n != id {
        OthersKeep(s, s', n, s.handlers[n]);
      }
    }
    var key := KeyOf(s.handlers[id].req);
    if !Taken(s.runs, key) && key.Some? {
      forall r | r in s.runs ensures s.runs[r].key != key {
      }
    }
  }

  /** A handler moving on without writing. */
  lemma MoveKeeps(s: Sys, id: nat, at: Phase)
    requires Inv(s) && id in s.handlers && HandlerOk(s, id, s.handlers[id].(at := at))
    requires id in s.runs ==> Owns(at, id)
    ensures Inv(At(s, id, at))
  {
    var s' := At(s, id, at);
    OthersKeep(s, s', id, s'.handlers[id]);
    forall n | n in s'.handlers ensures HandlerOk(s', n, s'.handlers[n]) {
      if n != id {
        OthersKeep(s, s', n, s.handlers[n]);
      }
    }
  }

  lemma OpenKeeps(s: Sys, id: nat)
    requires Inv(s) && id in s.handlers && s.handlers[id].at == Opening
    ensures Inv(At(s.(intents := s.intents + {id}), id, Writing(0)))
  {
    var s' := At(s.(intents := s.intents + {id}), id, Writing(0));
    assert HandlerOk(s, id, s.handlers[id]);
    forall n | n in s'.handlers ensures HandlerOk(s', n, s'.handlers[n]) {
      if n != id {
        OthersKeep(s, s', n, s.handlers[n]);
      }
    }
  }

  function BulletWritten(s: Sys, id: nat, next: nat): Sys
    requires id in s.handlers && next < |s.handlers[id].req.repos|
  {
    At(s.(bullets := s.bullets + [Bullet(id, s.handlers[id].req.repos[next], next + 1)]), id, Writing(next + 1))
  }

  lemma OwnBulletKeeps(s: Sys, id: nat, next: nat)
    requires id in s.handlers && s.handlers[id].at == Writing(next) && next < |s.handlers[id].req.repos|
    requires HandlerOk(s, id, s.handlers[id])
    ensures HandlerOk(BulletWritten(s, id, next), id, BulletWritten(s, id, next).handlers[id])
  {
    var repos := s.handlers[id].req.repos;
    var b := Bullet(id, repos[next], next + 1);
    BulletAdded(s.bullets, b, id);
    assert Planned(id, repos, next) + [b] == Planned(id, repos, next + 1);
  }

  lemma OthersBulletKeeps(s: Sys, id: nat, next: nat, n: nat)
    requires id in s.handlers && next < |s.handlers[id].req.repos|
    requires n in s.handlers && n != id && HandlerOk(s, n, s.handlers[n])
    ensures HandlerOk(BulletWritten(s, id, next), n, s.handlers[n])
  {
    var b := Bullet(id, s.handlers[id].req.repos[next], next + 1);
    BulletAdded(s.bullets, b, n);
    assert BulletsOf(s.bullets, n) + [] == BulletsOf(s.bullets, n);
    OthersKeep(s, BulletWritten(s, id, next), n, s.handlers[n]);
  }

  /** A step that changes no run and no intent, and leaves every handler fine. */
  lemma FrameKeeps(s: Sys, s': Sys)
    requires Inv(s) && s'.runs == s.runs && s'.intents == s.intents
    requires forall n :: n in s'.handlers ==> HandlerOk(s', n, s'.handlers[n])
    requires forall n :: n in s.runs ==> n in s'.handlers && Owns(s'.handlers[n].at, n) && s'.handlers[n].req == s.handlers[n].req
    requires forall b :: b in s'.bullets ==> b.intent in s.runs
    ensures Inv(s')
  {
  }

  lemma BulletKeeps(s: Sys, id: nat, next: nat)
    requires Inv(s) && id in s.handlers && s.handlers[id].at == Writing(next) && next < |s.handlers[id].req.repos|
    ensures Inv(BulletWritten(s, id, next))
  {
    var s' := BulletWritten(s, id, next);
    assert HandlerOk(s, id, s.handlers[id]);
    OwnBulletKeeps(s, id, next);
    forall n | n in s'.handlers ensures HandlerOk(s', n, s'.handlers[n]) {
      if n != id {
        OthersBulletKeeps(s, id, next, n);
      }
    }
    forall b | b in s'.bullets ensures b.intent in s.runs {
      assert b in s.bullets || b.intent == id;
    }
    FrameKeeps(s, s');
  }

  lemma GoesByWriting(s: Sys, id: nat, row: nat, resolves: bool)
    requires id in s.handlers && s.handlers[id].at.Writing?
    ensures Goes(s, id, row, resolves) ==
      if s.handlers[id].at.next < |s.handlers[id].req.repos| then BulletWritten(s, id, s.handlers[id].at.next)
      else At(s, id, Answered(id))
  {
  }

  lemma WritingKeeps(s: Sys, id: nat, row: nat, resolves: bool)
    requires Inv(s) && id in s.handlers && s.handlers[id].at.Writing?
    ensures Inv(Goes(s, id, row, resolves))
  {
    assert HandlerOk(s, id, s.handlers[id]);
    GoesByWriting(s, id, row, resolves);
    if s.handlers[id].at.next < |s.handlers[id].req.repos| {
      BulletKeeps(s, id, s.handlers[id].at.next);
    } else {
      MoveKeeps(s, id, Answered(id));
    }
  }

  /** A request that lost its claim only reads. */
  lemma LosingKeeps(s: Sys, id: nat, row: nat, resolves: bool)
    requires Inv(s) && id in s.handlers && (s.handlers[id].at.Losing? || s.handlers[id].at.Reading?)
    ensures Inv(Goes(s, id, row, resolves))
  {
    var h := s.handlers[id];
    assert HandlerOk(s, id, h);
    if h.at.Reading? {
      var run := h.at.run;
      MoveKeeps(s, id, if run in s.runs && (s.runs[run].change == h.req.change || resolves) then Answered(run) else Refused);
    } else if Taken(s.runs, KeyOf(h.req)) && row in s.runs && s.runs[row].key == KeyOf(h.req) {
      MoveKeeps(s, id, Reading(row));
    }
  }

  lemma GoKeeps(s: Sys, id: nat, row: nat, resolves: bool)
    requires Inv(s) && id in s.handlers
    ensures Inv(Goes(s, id, row, resolves))
  {
    match s.handlers[id].at
    case Claiming => ClaimKeeps(s, id, row, resolves);
    case Opening => OpenKeeps(s, id);
    case Writing(_) => WritingKeeps(s, id, row, resolves);
    case Losing => LosingKeeps(s, id, row, resolves);
    case Reading(_) => LosingKeeps(s, id, row, resolves);
    case Answered(_) =>
    case Refused =>
  }

  lemma NextKeeps(s: Sys, step: Step)
    requires Inv(s)
    ensures Inv(Next(s, step))
  {
    match step
    case Arrive(id, req) => if id !in s.handlers { ArriveKeeps(s, id, req); }
    case Go(id, row, resolves) =>
      if id in s.handlers { GoKeeps(s, id, row, resolves); }
  }

  lemma {:induction false} RunKeeps(steps: seq<Step>)
    ensures Inv(Run(steps))
  {
    if steps != [] {
      RunKeeps(steps[..|steps| - 1]);
      NextKeeps(Run(steps[..|steps| - 1]), steps[|steps| - 1]);
    }
  }

  // ---- the theorems

  predicate Begun(at: Phase) {
    !at.Claiming?
  }

  predicate Finished(at: Phase) {
    at.Answered? || at.Refused?
  }

  /** Of any number of concurrent requests with one key, exactly one gets a run: as soon as
      one of them went past its claim there is a run with the key, and never a second. */
  lemma OneRunPerKey(steps: seq<Step>, id: nat)
    requires var s := Run(steps); id in s.handlers && Begun(s.handlers[id].at) && KeyOf(s.handlers[id].req).Some?
    ensures var s := Run(steps);
      exists winner :: winner in s.runs && s.runs[winner].key == KeyOf(s.handlers[id].req)
        && forall r :: r in s.runs && s.runs[r].key == KeyOf(s.handlers[id].req) ==> r == winner
  {
    RunKeeps(steps);
    var s := Run(steps);
    assert HandlerOk(s, id, s.handlers[id]);
    var key := KeyOf(s.handlers[id].req);
    assert Taken(s.runs, key);
    var winner :| winner in s.runs && s.runs[winner].key == key;
  }

  /** Every successful answer to a key names the same run. */
  lemma AnswersAgree(steps: seq<Step>, id1: nat, id2: nat)
    requires id1 in Run(steps).handlers && id2 in Run(steps).handlers
    requires Run(steps).handlers[id1].at.Answered? && Run(steps).handlers[id2].at.Answered?
    requires KeyOf(Run(steps).handlers[id1].req) == KeyOf(Run(steps).handlers[id2].req) != None
    ensures Run(steps).handlers[id1].at.run == Run(steps).handlers[id2].at.run
  {
    RunKeeps(steps);
    var s := Run(steps);
    assert HandlerOk(s, id1, s.handlers[id1]) && HandlerOk(s, id2, s.handlers[id2]);
    assert s.handlers[id1].at.run in s.runs && s.handlers[id2].at.run in s.runs;
  }

  /** A request answered with another's run, or refused, wrote nothing at all. */
  lemma LosersWriteNothing(steps: seq<Step>, id: nat)
    requires var s := Run(steps); id in s.handlers && Finished(s.handlers[id].at) && s.handlers[id].at != Answered(id)
    ensures var s := Run(steps);
      && id !in s.runs && id !in s.intents && (forall b :: b in s.bullets ==> b.intent != id)
      && KeyOf(s.handlers[id].req).Some?
  {
    RunKeeps(steps);
    var s := Run(steps);
    assert HandlerOk(s, id, s.handlers[id]);
    NoBulletsOf(s.bullets, id);
  }

  /** A request answered with its own run has that run, its intent, and one bullet for each
      of its repositories, at positions 1..n in target order. */
  lemma WinnerWroteItAll(steps: seq<Step>, id: nat)
    requires var s := Run(steps); id in s.handlers && s.handlers[id].at == Answered(id)
    ensures var s := Run(steps);
      var mine := BulletsOf(s.bullets, id);
      && id in s.runs && s.runs[id].change == s.handlers[id].req.change
      && id in s.intents && |mine| == |s.handlers[id].req.repos|
      && forall i :: 0 <= i < |mine| ==> mine[i] == Bullet(id, s.handlers[id].req.repos[i], i + 1)
  {
    RunKeeps(steps);
    assert HandlerOk(Run(steps), id, Run(steps).handlers[id]);
  }

  /** Requests without a key never deduplicate: each finished one has its own run. */
  lemma KeylessNeverDeduplicate(steps: seq<Step>, id: nat)
    requires var s := Run(steps); id in s.handlers && Finished(s.handlers[id].at) && KeyOf(s.handlers[id].req).None?
    ensures Run(steps).handlers[id].at == Answered(id)
  {
    RunKeeps(steps);
    assert HandlerOk(Run(steps), id, Run(steps).handlers[id]);
  }

  /** Nothing else is there: every intent and every bullet belongs to a run some request won. */
  lemma NothingBesides(steps: seq<Step>)
    ensures var s := Run(steps);
      && (forall id :: id in s.runs ==> id in s.handlers && Owns(s.handlers[id].at, id))
      && s.intents <= s.runs.Keys
      && forall b :: b in s.bullets ==> b.intent in s.runs
  {
    RunKeeps(steps);
  }

  // ---- what a repeat is answered

  /** Some step of the request found that the change of the stored run resolves, or not. */
  predicate Looked(steps: seq<Step>, id: nat, resolves: bool) {
    exists i :: 0 <= i < |steps| && steps[i].Go? && steps[i].id == id && steps[i].resolves == resolves
  }

  lemma LookedStill(steps: seq<Step>, id: nat, resolves: bool)
    requires steps != []
    ensures Looked(steps[..|steps| - 1], id, resolves) ==> Looked(steps, id, resolves)
    ensures var last := steps[|steps| - 1]; last.Go? && last.id == id && last.resolves == resolves ==> Looked(steps, id, resolves)
  {
    if Looked(steps[..|steps| - 1], id, resolves) {
      var before := steps[..|steps| - 1];
      var i :| 0 <= i < |before| && before[i].Go? && before[i].id == id && before[i].resolves == resolves;
      assert steps[i] == before[i];
    }
  }

  /** A stored run keeps its row. */
  lemma RowsStay(s: Sys, step: Step)
    requires Inv(s)
    ensures forall r :: r in s.runs ==> r in Next(s, step).runs && Next(s, step).runs[r] == s.runs[r]
  {
    if step.Go? && step.id in s.handlers {
      assert HandlerOk(s, step.id, s.handlers[step.id]);
    }
  }

  /** And an answer stays. */
  lemma FinishedStays(s: Sys, step: Step, id: nat)
    requires id in s.handlers && Finished(s.handlers[id].at)
    ensures id in Next(s, step).handlers && Next(s, step).handlers[id] == s.handlers[id]
  {
  }

  /** What its answer says, where a look `found` a change or `missed` one. */
  ghost predicate Answers(s: Sys, id: nat, found: bool, missed: bool)
    requires id in s.handlers
  {
    var h := s.handlers[id];
    && (h.at.Answered? && h.at.run != id ==> h.at.run in s.runs && (s.runs[h.at.run].change == h.req.change || found))
    && (h.at.Refused? ==> missed)
  }

  lemma AnswersKept(s: Sys, step: Step, id: nat, found: bool, missed: bool)
    requires Inv(s) && id in s.handlers && Finished(s.handlers[id].at) && Answers(s, id, found, missed)
    ensures id in Next(s, step).handlers && Answers(Next(s, step), id, found, missed)
  {
    RowsStay(s, step);
    FinishedStays(s, step, id);
  }

  /** The request comes to an answer with another's run, or to a refusal, by what it reads. */
  lemma AnsweredAtStep(s: Sys, id: nat, row: nat, resolves: bool)
    requires id in s.handlers && HandlerOk(s, id, s.handlers[id]) && !Finished(s.handlers[id].at)
    ensures id in Goes(s, id, row, resolves).handlers
    ensures Finished(Goes(s, id, row, resolves).handlers[id].at) ==> Answers(Goes(s, id, row, resolves), id, resolves, !resolves)
  {
  }

  lemma NewcomersClaim(s: Sys, step: Step, id: nat)
    requires id !in s.handlers && id in Next(s, step).handlers
    ensures !Finished(Next(s, step).handlers[id].at)
  {
  }

  lemma OnlyItsOwnStep(s: Sys, step: Step, id: nat)
    requires id in s.handlers ==> !Finished(s.handlers[id].at)
    requires id in Next(s, step).handlers && Finished(Next(s, step).handlers[id].at)
    ensures id in s.handlers && step.Go? && step.id == id
  {
    if id !in s.handlers {
      NewcomersClaim(s, step, id);
    } else if !(step.Go? && step.id == id) {
      OthersDoNotMove(s, step, id);
    }
  }

  lemma AnswersReached(s: Sys, step: Step, id: nat)
    requires id in s.handlers ==> HandlerOk(s, id, s.handlers[id]) && !Finished(s.handlers[id].at)
    requires id in Next(s, step).handlers && Finished(Next(s, step).handlers[id].at)
    ensures step.Go? && step.id == id && Answers(Next(s, step), id, step.resolves, !step.resolves)
  {
    OnlyItsOwnStep(s, step, id);
    AnsweredAtStep(s, id, step.row, step.resolves);
  }

  /** A repeat is answered with the stored run only if that run is of the change the repeat
      resolved, or its own change was found on disk; it is refused only when it was not found. */
  lemma {:induction false} RepeatIsAnswered(steps: seq<Step>, id: nat)
    requires id in Run(steps).handlers && Finished(Run(steps).handlers[id].at)
    ensures Answers(Run(steps), id, Looked(steps, id, true), Looked(steps, id, false))
  {
    var before, last := steps[..|steps| - 1], steps[|steps| - 1];
    RunKeeps(before);
    LookedStill(steps, id, true);
    LookedStill(steps, id, false);
    if id in Run(before).handlers && Finished(Run(before).handlers[id].at) {
      RepeatIsAnswered(before, id);
      AnswersKept(Run(before), last, id, Looked(before, id, true), Looked(before, id, false));
    } else {
      assert id in Run(before).handlers ==> HandlerOk(Run(before), id, Run(before).handlers[id]);
      AnswersReached(Run(before), last, id);
    }
  }

  /** How many steps of its own a request is from its answer. */
  function StepsLeft(h: Handler): int {
    match h.at
    case Claiming => |h.req.repos| + 3
    case Opening => |h.req.repos| + 2
    case Writing(next) => |h.req.repos| - next + 1
    case Losing => 2
    case Reading(_) => 1
    case Answered(_) => 0
    case Refused => 0
  }

  lemma StepNearer(s: Sys, id: nat, row: nat, resolves: bool)
    requires id in s.handlers && HandlerOk(s, id, s.handlers[id]) && !Finished(s.handlers[id].at)
    requires s.handlers[id].at.Losing? ==> row in s.runs && s.runs[row].key == KeyOf(s.handlers[id].req)
    ensures var s' := Goes(s, id, row, resolves);
      && id in s'.handlers && s'.handlers[id].req == s.handlers[id].req
      && 0 <= StepsLeft(s'.handlers[id]) < StepsLeft(s.handlers[id])
  {
  }

  /** Whatever others do, each step of its own brings a request nearer to its answer: it never
      waits for another. The lookup of a repeat finds a run with its key. */
  lemma NoneWaits(steps: seq<Step>, id: nat, row: nat, resolves: bool)
    requires var s := Run(steps); id in s.handlers && !Finished(s.handlers[id].at)
    requires var s := Run(steps); s.handlers[id].at.Losing? ==> row in s.runs && s.runs[row].key == KeyOf(s.handlers[id].req)
    ensures var s, s' := Run(steps), Next(Run(steps), Go(id, row, resolves));
      && id in s'.handlers && s'.handlers[id].req == s.handlers[id].req
      && 0 <= StepsLeft(s'.handlers[id]) < StepsLeft(s.handlers[id])
  {
    RunKeeps(steps);
    var s := Run(steps);
    assert HandlerOk(s, id, s.handlers[id]);
    StepNearer(s, id, row, resolves);
  }

  /** And no step of another moves it. */
  lemma OthersDoNotMove(s: Sys, step: Step, id: nat)
    requires id in s.handlers && (step.Go? ==> step.id != id)
    ensures id in Next(s, step).handlers && Next(s, step).handlers[id] == s.handlers[id]
  {
  }

  /** A repeat that reads the stored run is answered with it exactly when the changes agree or
      the stored one is found; a request is turned into a repeat exactly by a run with its key. */
  lemma TurnOfRequest(steps: seq<Step>, id: nat, row: nat, resolves: bool)
    requires id in Run(steps).handlers
    ensures var s, h, h' := Run(steps), Run(steps).handlers[id], Next(Run(steps), Go(id, row, resolves)).handlers[id];
      && (h.at.Claiming? ==> (h'.at.Losing? <==> KeyOf(h.req).Some? && exists r :: r in s.runs && s.runs[r].key == KeyOf(h.req)))
      && (h.at.Reading? ==> h.at.run in s.runs && (h'.at.Answered? <==> s.runs[h.at.run].change == h.req.change || resolves))
  {
    RunKeeps(steps);
    assert HandlerOk(Run(steps), id, Run(steps).handlers[id]);
  }
}
