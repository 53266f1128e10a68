/** Gitignore-style matching of slash-separated names. Matching inside one segment is the
    parameter `seg`, which answers false for a malformed segment pattern. */
module Glob {

  type Segments = seq<string>

  type SegMatch = (string, string) -> bool

  const ANY := "**"

  function Match(p: Segments, n: Segments, seg: SegMatch): bool
    decreases |p| + |n|
  {
    if p == [] then n == []
    else if p[0] == ANY then Match(p[1..], n, seg) || (n != [] && Match(p, n[1..], seg))
    else n != [] && seg(p[0], n[0]) && Match(p[1..], n[1..], seg)
  }

  // ---- what matching means

  function Flatten(pieces: seq<Segments>): Segments {
    if pieces == [] then [] else pieces[0] + Flatten(pieces[1..])
  }

  predicate Takes(segment: string, piece: Segments, seg: SegMatch) {
    segment == ANY || (|piece| == 1 && seg(segment, piece[0]))
  }

  /** One piece of the name for each segment of the pattern, in order. */
  predicate Fits(p: Segments, n: Segments, pieces: seq<Segments>, seg: SegMatch) {
    && |pieces| == |p| && Flatten(pieces) == n
    && forall i :: 0 <= i < |p| ==> Takes(p[i], pieces[i], seg)
  }

  lemma {:induction false} MatchGivesPieces(p: Segments, n: Segments, seg: SegMatch) returns (pieces: seq<Segments>)
    requires Match(p, n, seg)
    ensures Fits(p, n, pieces, seg)
    decreases |p| + |n|
  {
    if p == [] {
      pieces := [];
    } else if p[0] == ANY && !Match(p[1..], n, seg) {
      var rest := MatchGivesPieces(p, n[1..], seg);
      pieces := [[n[0]] + rest[0]] + rest[1..];
      assert pieces[1..] == rest[1..];
      assert n == [n[0]] + n[1..] == [n[0]] + (rest[0] + Flatten(rest[1..]));
    } else {
      var piece := if p[0] == ANY then [] else [n[0]];
      var rest := MatchGivesPieces(p[1..], n[|piece|..], seg);
      pieces := [piece] + rest;
      assert pieces[1..] == rest;
      assert n == piece + n[|piece|..];
      forall i | 0 < i < |p| ensures Takes(p[i], pieces[i], seg) {
        assert p[i] == p[1..][i - 1] && pieces[i] == rest[i - 1];
      }
    }
  }

  /** Any number of segments may go to a leading double star. */
  lemma {:induction false} AnyTakes(p: Segments, n: Segments, k: nat, seg: SegMatch)
    requires p != [] && p[0] == ANY && k <= |n| && Match(p[1..], n[k..], seg)
    ensures Match(p, n, seg)
    decreases k
  {
    if k > 0 {
      assert n[1..][k - 1..] == n[k..];
      AnyTakes(p, n[1..], k - 1, seg);
    } else {
      assert n[0..] == n;
    }
  }

  lemma {:induction false} PiecesGiveMatch(p: Segments, n: Segments, pieces: seq<Segments>, seg: SegMatch)
    requires Fits(p, n, pieces, seg)
    ensures Match(p, n, seg)
    decreases |p|
  {
    if p != [] {
      var k := |pieces[0]|;
      assert n[k..] == Flatten(pieces[1..]);
      forall i | 0 <= i < |p[1..]| ensures Takes(p[1..][i], pieces[1..][i], seg) {
        assert Takes(p[i + 1], pieces[i + 1], seg);
      }
      PiecesGiveMatch(p[1..], n[k..], pieces[1..], seg);
      assert Takes(p[0], pieces[0], seg);
      if p[0] == ANY {
        AnyTakes(p, n, k, seg);
      }
    }
  }

  /** A name matches exactly when it splits into pieces where each double star takes any
      number of segments and every other pattern segment takes one that matches it. */
  lemma MatchIsExact(p: Segments, n: Segments, seg: SegMatch)
    ensures Match(p, n, seg) <==> exists pieces :: Fits(p, n, pieces, seg)
  {
    if Match(p, n, seg) {
      var pieces := MatchGivesPieces(p, n, seg);
    }
    if pieces :| Fits(p, n, pieces, seg) {
      PiecesGiveMatch(p, n, pieces, seg);
    }
  }

  lemma {:induction false} FlattenConcat(a: seq<Segments>, b: seq<Segments>)
    ensures Flatten(a + b) == Flatten(a) + Flatten(b)
  {
    if a == [] {
      assert a + b == b;
    } else {
      FlattenConcat(a[1..], b);
      assert (a + b)[1..] == a[1..] + b;
      assert a[0] + (Flatten(a[1..]) + Flatten(b)) == (a[0] + Flatten(a[1..])) + Flatten(b);
    }
  }

  lemma FitsHalves(p: Segments, q: Segments, n: Segments, pieces: seq<Segments>, seg: SegMatch) returns (k: nat)
    requires Fits(p + q, n, pieces, seg)
    ensures k <= |n| && Fits(p, n[..k], pieces[..|p|], seg) && Fits(q, n[k..], pieces[|p|..], seg)
  {
    var left, right := pieces[..|p|], pieces[|p|..];
    FlattenConcat(left, right);
    assert left + right == pieces;
    k := |Flatten(left)|;
    forall i | 0 <= i < |p| ensures Takes(p[i], left[i], seg) {
      assert Takes((p + q)[i], pieces[i], seg);
    }
    forall i | 0 <= i < |q| ensures Takes(q[i], right[i], seg) {
      assert Takes((p + q)[|p| + i], pieces[|p| + i], seg);
    }
  }

  lemma FitsTogether(p: Segments, q: Segments, m: Segments, n: Segments, left: seq<Segments>, right: seq<Segments>, seg: SegMatch)
    requires Fits(p, m, left, seg) && Fits(q, n, right, seg)
    ensures Fits(p + q, m + n, left + right, seg)
  {
    FlattenConcat(left, right);
  }

  lemma MatchSplits(p: Segments, q: Segments, n: Segments, seg: SegMatch) returns (k: nat)
    requires Match(p + q, n, seg)
    ensures k <= |n| && Match(p, n[..k], seg) && Match(q, n[k..], seg)
  {
    var pieces := MatchGivesPieces(p + q, n, seg);
    k := FitsHalves(p, q, n, pieces, seg);
    PiecesGiveMatch(p, n[..k], pieces[..|p|], seg);
    PiecesGiveMatch(q, n[k..], pieces[|p|..], seg);
  }

  lemma MatchesJoin(p: Segments, q: Segments, m: Segments, n: Segments, seg: SegMatch)
    requires Match(p, m, seg) && Match(q, n, seg)
    ensures Match(p + q, m + n, seg)
  {
    var left := MatchGivesPieces(p, m, seg);
    var right := MatchGivesPieces(q, n, seg);
    FitsTogether(p, q, m, n, left, right, seg);
    PiecesGiveMatch(p + q, m + n, left + right, seg);
  }

  /** Matching distributes over concatenation of patterns. */
  lemma MatchOfConcat(p: Segments, q: Segments, n: Segments, seg: SegMatch)
    ensures Match(p + q, n, seg) <==> exists k :: 0 <= k <= |n| && Match(p, n[..k], seg) && Match(q, n[k..], seg)
  {
    if Match(p + q, n, seg) {
      var k := MatchSplits(p, q, n, seg);
    }
    if k :| 0 <= k <= |n| && Match(p, n[..k], seg) && Match(q, n[k..], seg) {
      MatchesJoin(p, q, n[..k], n[k..], seg);
      assert n == n[..k] + n[k..];
    }
  }

  lemma {:induction false} AnyMatchesAll(n: Segments, seg: SegMatch)
    ensures Match([ANY], n, seg) && Match([ANY, ANY], n, seg)
  {
    assert n[|n|..] == [] && [ANY][1..] == [] && [ANY, ANY][1..] == [ANY];
    AnyTakes([ANY], n, |n|, seg);
    AnyTakes([ANY, ANY], n, 0, seg);
  }

  /** Repeating a double star changes nothing, wherever it stands. */
  lemma DoubleStarCollapses(p: Segments, q: Segments, n: Segments, seg: SegMatch)
    ensures Match(p + ([ANY, ANY] + q), n, seg) == Match(p + ([ANY] + q), n, seg)
  {
    MatchOfConcat(p, [ANY, ANY] + q, n, seg);
    MatchOfConcat(p, [ANY] + q, n, seg);
    forall k | 0 <= k <= |n|
      ensures Match([ANY, ANY] + q, n[k..], seg) == Match([ANY] + q, n[k..], seg)
    {
      MatchOfConcat([ANY, ANY], q, n[k..], seg);
      MatchOfConcat([ANY], q, n[k..], seg);
      forall j | 0 <= j <= |n[k..]|
        ensures Match([ANY, ANY], n[k..][..j], seg) && Match([ANY], n[k..][..j], seg)
      {
        AnyMatchesAll(n[k..][..j], seg);
      }
    }
  }

  /** Without a double star a pattern matches segment for segment. */
  lemma {:induction false} PlainIsPointwise(p: Segments, n: Segments, seg: SegMatch)
    requires ANY !in p
    ensures Match(p, n, seg) <==> |p| == |n| && forall i :: 0 <= i < |p| ==> seg(p[i], n[i])
    decreases |p|
  {
    if p != [] && n != [] {
      PlainIsPointwise(p[1..], n[1..], seg);
      if |p| == |n| && forall i :: 0 <= i < |p| ==> seg(p[i], n[i]) {
        assert forall i :: 0 <= i < |p[1..]| ==> p[1..][i] == p[i + 1] && n[1..][i] == n[i + 1];
      }
      if |p| == |n| && seg(p[0], n[0]) && forall i :: 0 <= i < |p[1..]| ==> seg(p[1..][i], n[1..][i]) {
        forall i | 0 <= i < |p| ensures seg(p[i], n[i]) {
          assert i > 0 ==> p[i] == p[1..][i - 1] && n[i] == n[1..][i - 1];
        }
      }
    }
  }

  // ---- in polynomial time

  /** Row `i` holds, for every suffix of the name, whether the pattern from `i` matches it. */
  predicate IsRow(row: seq<bool>, p: Segments, i: nat, n: Segments, seg: SegMatch)
    requires i <= |p|
  {
    |row| == |n| + 1 && forall j :: 0 <= j <= |n| ==> row[j] == Match(p[i..], n[j..], seg)
  }

  /** The recursion may try exponentially many splits; one row after another does not. */
  method MatchByTable(p: Segments, n: Segments, seg: SegMatch) returns (ok: bool)
    ensures ok == Match(p, n, seg)
  {
    var row := seq(|n| + 1, j => j == |n|);
    assert p[|p|..] == [];
    var i := |p|;
    while i > 0
      invariant 0 <= i <= |p| && IsRow(row, p, i, n, seg)
    {
      row := NextRow(p, i - 1, n, seg, row);
      i := i - 1;
    }
    assert p[0..] == p && n[0..] == n;
    ok := row[0];
  }

  lemma Cell(p: Segments, i: nat, n: Segments, j: nat, seg: SegMatch)
    requires i < |p| && j <= |n|
    ensures Match(p[i..], n[j..], seg) ==
      if p[i] == ANY then Match(p[i + 1..], n[j..], seg) || (j < |n| && Match(p[i..], n[j + 1..], seg))
      else j < |n| && seg(p[i], n[j]) && Match(p[i + 1..], n[j + 1..], seg)
  {
    assert p[i..][1..] == p[i + 1..];
    if j < |n| {
      assert n[j..][1..] == n[j + 1..];
    }
  }

  method NextRow(p: Segments, i: nat, n: Segments, seg: SegMatch, below: seq<bool>) returns (row: seq<bool>)
    requires i < |p| && IsRow(below, p, i + 1, n, seg)
    ensures IsRow(row, p, i, n, seg)
  {
    row := below;
    var j := |n| + 1;
    while j > 0
      invariant 0 <= j <= |n| + 1 == |row|
      invariant forall k :: j <= k <= |n| ==> row[k] == Match(p[i..], n[k..], seg)
    {
      j := j - 1;
      Cell(p, i, n, j, seg);
      var here := if p[i] == ANY then below[j] || (j < |n| && row[j + 1])
                  else j < |n| && seg(p[i], n[j]) && below[j + 1];
      row := row[j := here];
    }
  }

  // ---- names and lists of patterns

  function Split(s: string): (parts: Segments)
    ensures parts != []
  {
    if s == "" then [""]
    else if s[0] == '/' then [""] + Split(s[1..])
    else
      var rest := Split(s[1..]);
      [[s[0]] + rest[0]] + rest[1..]
  }

  function Joined(parts: Segments): string
    requires parts != []
  {
    if |parts| == 1 then parts[0] else parts[0] + "/" + Joined(parts[1..])
  }

  /** Splitting loses nothing, and no segment holds a separator. */
  lemma {:induction false} SplitRoundTrip(s: string)
    ensures Joined(Split(s)) == s
    ensures forall i :: 0 <= i < |Split(s)| ==> '/' !in Split(s)[i]
  {
    if s != "" {
      SplitRoundTrip(s[1..]);
      var rest := Split(s[1..]);
      assert s == [s[0]] + s[1..];
      if s[0] == '/' {
        assert ([""] + rest)[1..] == rest;
      } else if |rest| > 1 {
        assert Split(s)[1..] == rest[1..];
      }
    }
  }

  predicate MatchesPattern(pattern: string, name: string, seg: SegMatch) {
    Match(Split(pattern), Split(name), seg)
  }

  predicate MatchesAny(patterns: seq<string>, name: string, seg: SegMatch) {
    exists i :: 0 <= i < |patterns| && MatchesPattern(patterns[i], name, seg)
  }

  method FindMatch(patterns: seq<string>, name: string, seg: SegMatch) returns (found: bool)
    ensures found == MatchesAny(patterns, name, seg)
  {
    for i := 0 to |patterns|
      invariant forall k :: 0 <= k < i ==> !MatchesPattern(patterns[k], name, seg)
    {
      if MatchesPattern(patterns[i], name, seg) {
        return true;
      }
    }
    return false;
  }

  lemma MatchesEither(ps: seq<string>, qs: seq<string>, name: string, seg: SegMatch)
    ensures MatchesAny(ps + qs, name, seg) <==> MatchesAny(ps, name, seg) || MatchesAny(qs, name, seg)
  {
    if i :| 0 <= i < |ps| && MatchesPattern(ps[i], name, seg) {
      assert (ps + qs)[i] == ps[i];
    }
    if i :| 0 <= i < |qs| && MatchesPattern(qs[i], name, seg) {
      assert (ps + qs)[|ps| + i] == qs[i];
    }
  }
}
