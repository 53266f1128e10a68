/** Runs, bullets and intents: the three linked tables and what is derived from them. */
module Records {
  import opened Wrappers

  datatype RunStatus = Running | Passed | Failed | Cancelled | TimedOut | Interrupted

  datatype BulletStatus = BulletProposed | BulletPending | Green | Blocked | Sealed | Merged

  datatype IntentStatus = PlanProposed | InProgress | Abandoned | Satisfied

  /** A bullet is named by its intent and its position in it. */
  datatype BulletID = BulletID(intent: string, position: nat)

  datatype Bullet = Bullet(id: BulletID, repo: string, status: BulletStatus, reason: string, url: string)

  /** A run without an intent names "". */
  datatype Run = Run(intent: string, status: RunStatus, base: string)

  function BulletsOf(bullets: seq<Bullet>, intent: string): seq<Bullet> {
    if bullets == [] then []
    else (if bullets[0].id.intent == intent then [bullets[0]] else []) + BulletsOf(bullets[1..], intent)
  }

  function WithStatus(bullets: seq<Bullet>, id: BulletID, status: BulletStatus): seq<Bullet> {
    seq(|bullets|, i requires 0 <= i < |bullets| =>
      if bullets[i].id == id then bullets[i].(status := status) else bullets[i])
  }

  function WithReason(bullets: seq<Bullet>, id: BulletID, status: BulletStatus, reason: string): seq<Bullet> {
    seq(|bullets|, i requires 0 <= i < |bullets| =>
      if bullets[i].id == id then bullets[i].(status := status, reason := reason) else bullets[i])
  }

  function WithURL(bullets: seq<Bullet>, id: BulletID, url: string): seq<Bullet> {
    seq(|bullets|, i requires 0 <= i < |bullets| =>
      if bullets[i].id == id then bullets[i].(url := url) else bullets[i])
  }

  /** Satisfied only when there are bullets and every one of them is merged. */
  function DeriveIntentStatus(bullets: seq<Bullet>): IntentStatus {
    if bullets == [] then InProgress
    else if exists i :: 0 <= i < |bullets| && bullets[i].status != Merged then InProgress
    else Satisfied
  }

  function BulletStatusForRunOutcome(status: RunStatus): Option<BulletStatus> {
    match status
    case Passed => Some(Green)
    case Failed => Some(Blocked)
    case Cancelled => Some(BulletPending)
    case _ => None
  }

  predicate IsResumable(status: RunStatus) {
    status == Failed || status == Cancelled || status == TimedOut || status == Interrupted
  }

  /** The first bullet of a repo, the one sealing and its change request go to. */
  function FirstOfRepo(bullets: seq<Bullet>, repo: string): Option<Bullet> {
    if bullets == [] then None
    else if bullets[0].repo == repo then Some(bullets[0])
    else FirstOfRepo(bullets[1..], repo)
  }

  lemma {:induction false} BulletsOfMeans(bullets: seq<Bullet>, intent: string)
    ensures forall b :: b in BulletsOf(bullets, intent) <==> b in bullets && b.id.intent == intent
  {
    if bullets != [] {
      BulletsOfMeans(bullets[1..], intent);
      assert bullets == [bullets[0]] + bullets[1..];
    }
  }

  /** The first of a repo: it is one of the list, and none before it is of that repo. */
  lemma {:induction false} FirstOfRepoMeans(bullets: seq<Bullet>, repo: string)
    ensures var b := FirstOfRepo(bullets, repo);
      && (b == None <==> forall i :: 0 <= i < |bullets| ==> bullets[i].repo != repo)
      && (b.Some? ==> b.value in bullets && b.value.repo == repo)
      && (b.Some? ==> exists i :: 0 <= i < |bullets| && bullets[i] == b.value && forall k :: 0 <= k < i ==> bullets[k].repo != repo)
  {
    if bullets != [] {
      if bullets[0].repo == repo {
        assert bullets[0] == FirstOfRepo(bullets, repo).value;
      } else {
        FirstOfRepoMeans(bullets[1..], repo);
        assert forall i :: 0 < i < |bullets| ==> bullets[i] == bullets[1..][i - 1];
        var b := FirstOfRepo(bullets[1..], repo);
        if b.Some? {
          var i :| 0 <= i < |bullets[1..]| && bullets[1..][i] == b.value && forall k :: 0 <= k < i ==> bullets[1..][k].repo != repo;
          assert bullets[i + 1] == b.value;
        }
      }
    }
  }

  ghost predicate DistinctIDs(bullets: seq<Bullet>) {
    forall i, j :: 0 <= i < j < |bullets| ==> bullets[i].id != bullets[j].id
  }

  lemma FirstIsDistinct(first: Bullet, rest: seq<Bullet>)
    requires DistinctIDs(rest) && forall b :: b in rest ==> b.id != first.id
    ensures DistinctIDs([first] + rest)
  {
    var all := [first] + rest;
    forall i, j | 0 <= i < j < |all| ensures all[i].id != all[j].id {
      assert all[j] == rest[j - 1] && all[j] in rest;
      assert i > 0 ==> all[i] == rest[i - 1];
    }
  }

  lemma {:induction false} BulletsOfDistinct(bullets: seq<Bullet>, intent: string)
    requires DistinctIDs(bullets)
    ensures DistinctIDs(BulletsOf(bullets, intent))
  {
    if bullets != [] {
      var rest := BulletsOf(bullets[1..], intent);
      BulletsOfDistinct(bullets[1..], intent);
      BulletsOfMeans(bullets[1..], intent);
      forall b | b in rest ensures b.id != bullets[0].id {
        var j :| 0 <= j < |bullets[1..]| && bullets[1..][j] == b;
        assert bullets[j + 1] == b;
      }
      FirstIsDistinct(bullets[0], rest);
      assert [] + rest == rest;
    }
  }

  /** An intent is satisfied exactly when it has bullets and every one of them is merged. */
  lemma DeriveMeans(bullets: seq<Bullet>)
    ensures DeriveIntentStatus(bullets) ==
      if |bullets| > 0 && forall i :: 0 <= i < |bullets| ==> bullets[i].status == Merged then Satisfied else InProgress
  {
  }

  /** Which outcomes move the bullets of a run, and where to; the runs that can be resumed. */
  lemma OutcomesMean(status: RunStatus)
    ensures BulletStatusForRunOutcome(status) ==
      if status == Passed then Some(Green) else if status == Failed then Some(Blocked)
      else if status == Cancelled then Some(BulletPending) else None
    ensures IsResumable(status) <==> status != Running && status != Passed
  {
  }

  // ---- why a run is blocked

  /** What one envelope says: the summaries of a review's blocking findings, or a reason. */
  datatype Voice = Findings(summaries: seq<string>) | Reason(reason: string)

  const NO_REASON := "gates did not pass; no further automatic attempt available"

  function Joined(parts: seq<string>): string {
    if parts == [] then ""
    else if |parts| == 1 then parts[0]
    else parts[0] + "; " + Joined(parts[1..])
  }

  /** The last envelope that names a reason wins; findings with nothing to say count too. */
  function LastReason(voices: seq<Voice>): string {
    if voices == [] then ""
    else match voices[|voices| - 1]
      case Findings(summaries) => Joined(summaries)
      case Reason(reason) => if reason != "" then reason else LastReason(voices[..|voices| - 1])
  }

  /** The reason that goes with a status: none but for blocked, and never none for that. */
  function ReasonFor(voices: seq<Voice>, status: BulletStatus): string {
    if status != Blocked then "" else if LastReason(voices) == "" then NO_REASON else LastReason(voices)
  }

  /** Summaries are joined in order with a semicolon between them. */
  lemma {:induction false} JoinedMeans(a: seq<string>, b: seq<string>)
    ensures Joined([]) == "" && (|a| == 1 ==> Joined(a) == a[0])
    ensures a != [] && b != [] ==> Joined(a + b) == Joined(a) + "; " + Joined(b)
    decreases |a|
  {
    if a != [] && b != [] {
      assert (a + b)[1..] == a[1..] + b;
      if |a| > 1 {
        JoinedMeans(a[1..], b);
      } else {
        assert a[1..] + b == b;
      }
    }
  }

  /** The envelope that names a reason last. */
  ghost predicate LastNamed(voices: seq<Voice>, i: int) {
    0 <= i < |voices| && voices[i] != Reason("") && forall k :: i < k < |voices| ==> voices[k] == Reason("")
  }

  /** What it says is the reason: its blocking findings or its own words. */
  lemma {:induction false} LastReasonMeans(voices: seq<Voice>)
    ensures (forall i :: 0 <= i < |voices| ==> voices[i] == Reason("")) ==> LastReason(voices) == ""
    ensures forall i :: LastNamed(voices, i) ==>
      LastReason(voices) == match voices[i] case Findings(summaries) => Joined(summaries) case Reason(reason) => reason
  {
    if voices != [] {
      var n := |voices| - 1;
      LastReasonMeans(voices[..n]);
      forall i | LastNamed(voices, i) && i < n ensures LastNamed(voices[..n], i) {
        assert forall k :: 0 <= k < n ==> voices[..n][k] == voices[k];
      }
    }
  }

  /** A bullet is never blocked without an explanation. */
  method BlockedReasonForRun(voices: seq<Voice>, status: BulletStatus) returns (reason: string)
    ensures reason == ReasonFor(voices, status)
    ensures status == Blocked <==> reason != ""
  {
    if status != Blocked {
      return "";
    }
    reason := "";
    assert voices[..|voices|] == voices;
    for i := 0 to |voices|
      invariant reason == LastReason(voices[..i])
    {
      assert voices[..i + 1][..i] == voices[..i];
      match voices[i] {
        case Findings(summaries) => reason := Joined(summaries);
        case Reason(r) => if r != "" { reason := r; }
      }
    }
    if reason == "" {
      reason := NO_REASON;
    }
  }
}
