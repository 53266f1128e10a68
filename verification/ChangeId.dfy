/** Deriving a change id from a brief: its words in lower case, joined by hyphens and capped
    on a word boundary. */
module ChangeId {

  const MAX_CHANGE_ID_LEN: nat := 48

  predicate IsLower(c: char) {
    'a' <= c <= 'z' || '0' <= c <= '9'
  }

  predicate IsUpper(c: char) {
    'A' <= c <= 'Z'
  }

  predicate IsWordChar(c: char) {
    IsLower(c) || IsUpper(c)
  }

  function Lower(c: char): char {
    if IsUpper(c) then c + ('a' - 'A') else c
  }

  // ---- what is derived

  /** The maximal runs of ASCII letters and digits, in lower case. */
  function Words(s: string): (words: seq<string>)
    ensures forall i :: 0 <= i < |words| ==> words[i] != ""
    ensures s != "" && IsWordChar(s[|s| - 1]) ==> words != []
  {
    if s == "" then []
    else
      var before, c := s[..|s| - 1], s[|s| - 1];
      var words := Words(before);
      if !IsWordChar(c) then words
      else if before != "" && IsWordChar(before[|before| - 1])
      then words[|words| - 1 := words[|words| - 1] + [Lower(c)]]
      else words + [[Lower(c)]]
  }

  function Joined(words: seq<string>): string {
    if words == [] then ""
    else if |words| == 1 then words[0]
    else Joined(words[..|words| - 1]) + "-" + words[|words| - 1]
  }

  /** The position of the last hyphen, or -1. */
  function LastHyphen(s: string): (cut: int)
    ensures -1 <= cut < |s|
    ensures cut >= 0 ==> s[cut] == '-'
    ensures forall i :: cut < i < |s| ==> s[i] != '-'
  {
    if s == "" then -1
    else if s[|s| - 1] == '-' then |s| - 1
    else LastHyphen(s[..|s| - 1])
  }

  function TrimLeft(s: string): string {
    if s != "" && s[0] == '-' then TrimLeft(s[1..]) else s
  }

  function TrimRight(s: string): string {
    if s != "" && s[|s| - 1] == '-' then TrimRight(s[..|s| - 1]) else s
  }

  function Capped(id: string): string {
    if |id| <= MAX_CHANGE_ID_LEN then id
    else
      var head := id[..MAX_CHANGE_ID_LEN];
      var cut := LastHyphen(head);
      TrimRight(TrimLeft(if cut > 0 then head[..cut] else head))
  }

  function Derived(brief: string): string {
    Capped(Joined(Words(brief)))
  }

  // ---- the loop

  /** A word character right after another goes on the last word. */
  lemma JoinedExtends(words: seq<string>, c: char)
    requires words != []
    ensures Joined(words[|words| - 1 := words[|words| - 1] + [c]]) == Joined(words) + [c]
  {
    var more := words[|words| - 1 := words[|words| - 1] + [c]];
    assert more[..|words| - 1] == words[..|words| - 1];
  }

  lemma JoinedAdds(words: seq<string>, word: string)
    ensures Joined(words + [word]) == if words == [] then word else Joined(words) + "-" + word
  {
    assert (words + [word])[..|words|] == words;
  }

  lemma {:induction false} JoinedIsEmptyIff(words: seq<string>)
    requires forall i :: 0 <= i < |words| ==> words[i] != ""
    ensures Joined(words) == "" <==> words == []
  {
  }

  predicate GoesOn(before: string) {
    before != "" && IsWordChar(before[|before| - 1])
  }

  lemma WordsOfNext(before: string, c: char)
    ensures Words(before + [c]) ==
      if !IsWordChar(c) then Words(before)
      else if GoesOn(before)
      then Words(before)[|Words(before)| - 1 := Words(before)[|Words(before)| - 1] + [Lower(c)]]
      else Words(before) + [[Lower(c)]]
  {
    assert (before + [c])[..|before|] == before;
  }

  /** What one more character does to the joined words. */
  lemma JoinedNext(before: string, c: char)
    ensures Joined(Words(before)) == "" <==> Words(before) == []
    ensures Joined(Words(before + [c])) ==
      if !IsWordChar(c) then Joined(Words(before))
      else if GoesOn(before) || Joined(Words(before)) == "" then Joined(Words(before)) + [Lower(c)]
      else Joined(Words(before)) + "-" + [Lower(c)]
  {
    var words := Words(before);
    JoinedIsEmptyIff(words);
    WordsOfNext(before, c);
    if GoesOn(before) {
      JoinedExtends(words, Lower(c));
    } else {
      JoinedAdds(words, [Lower(c)]);
    }
  }

  method DeriveChangeID(brief: string) returns (id: string)
    ensures id == Derived(brief)
    ensures |id| <= 48
    ensures forall i :: 0 <= i < |id| ==> 'a' <= id[i] <= 'z' || '0' <= id[i] <= '9' || id[i] == '-'
    ensures id != "" ==> id[0] != '-' && id[|id| - 1] != '-'
    ensures forall i :: 0 <= i < |id| - 1 ==> !(id[i] == '-' && id[i + 1] == '-')
    ensures id == "" <==> forall c :: c in brief ==> !('a' <= c <= 'z' || 'A' <= c <= 'Z' || '0' <= c <= '9')
  {
    DerivedMeans(brief);
    assert forall i :: 0 <= i < |brief| ==> brief[i] in brief;
    var b := "";
    var pendingHyphen := false;
    assert brief[..|brief|] == brief;
    for i := 0 to |brief|
      invariant b == Joined(Words(brief[..i]))
      invariant pendingHyphen == (i > 0 && !GoesOn(brief[..i]))
    {
      var c := brief[i];
      JoinedNext(brief[..i], c);
      assert brief[..i + 1] == brief[..i] + [c];
      if IsWordChar(c) {
        if pendingHyphen && |b| > 0 {
          b := b + "-";
        }
        pendingHyphen := false;
        b := b + [Lower(c)];
      } else {
        pendingHyphen := true;
      }
    }
    id := b;
    if |id| <= MAX_CHANGE_ID_LEN {
      return;
    }
    id := id[..MAX_CHANGE_ID_LEN];
    var cut := LastHyphen(id);
    if cut > 0 {
      id := id[..cut];
    }
    id := TrimRight(TrimLeft(id));
  }

  // ---- what an id looks like

  predicate IdChar(c: char) {
    IsLower(c) || c == '-'
  }

  /** Lower case words with single hyphens between them; a hyphen may end it. */
  predicate Hyphenated(s: string) {
    && (forall i :: 0 <= i < |s| ==> IdChar(s[i]))
    && (s != "" ==> s[0] != '-')
    && (forall i :: 0 <= i < |s| - 1 ==> !(s[i] == '-' && s[i + 1] == '-'))
  }

  /** And no hyphen ends it. */
  predicate Kebab(s: string) {
    Hyphenated(s) && (s != "" ==> s[|s| - 1] != '-')
  }

  lemma {:induction false} WordsAreLower(s: string)
    ensures forall i :: 0 <= i < |Words(s)| ==> forall k :: 0 <= k < |Words(s)[i]| ==> IsLower(Words(s)[i][k])
  {
    if s != "" {
      WordsAreLower(s[..|s| - 1]);
    }
  }

  lemma {:induction false} JoinedIsKebab(words: seq<string>)
    requires forall i :: 0 <= i < |words| ==> words[i] != ""
    requires forall i :: 0 <= i < |words| ==> forall k :: 0 <= k < |words[i]| ==> IsLower(words[i][k])
    ensures Kebab(Joined(words))
  {
    if |words| > 1 {
      var before := words[..|words| - 1];
      JoinedIsKebab(before);
      JoinedIsEmptyIff(before);
    }
  }

  lemma TrimKeepsKebab(s: string)
    requires Kebab(s)
    ensures TrimRight(TrimLeft(s)) == s
  {
  }

  lemma KebabPrefix(s: string, n: nat)
    requires Kebab(s) && n <= |s| && (n > 0 ==> s[n - 1] != '-')
    ensures Kebab(s[..n])
  {
  }

  /** Where a capped id was cut: right before the last hyphen of its first 48 characters, or
      inside its first word when that alone is longer. */
  lemma CapCutsAtLastHyphen(id: string)
    requires Kebab(id) && |id| > MAX_CHANGE_ID_LEN
    ensures var capped := Capped(id);
      && 0 < |capped| <= 48 && capped == id[..|capped|] && Kebab(capped)
      && (if '-' in id[..48] then id[|capped|] == '-' && '-' !in id[|capped| + 1..48] else |capped| == 48)
  {
    var head := id[..MAX_CHANGE_ID_LEN];
    var cut := LastHyphen(head);
    assert head[0] != '-';
    if cut > 0 {
      assert id[cut - 1] != '-';
      KebabPrefix(id, cut);
      assert head[..cut] == id[..cut];
      TrimKeepsKebab(id[..cut]);
      assert '-' in head;
      assert id[cut + 1..MAX_CHANGE_ID_LEN] == head[cut + 1..];
    } else {
      KebabPrefix(id, MAX_CHANGE_ID_LEN);
      TrimKeepsKebab(head);
      assert '-' !in head;
    }
  }

  lemma DerivedIsKebab(brief: string)
    ensures Kebab(Joined(Words(brief))) && Kebab(Derived(brief)) && |Derived(brief)| <= MAX_CHANGE_ID_LEN
    ensures Derived(brief) <= Joined(Words(brief))
    ensures Derived(brief) == "" <==> Words(brief) == []
  {
    var full := Joined(Words(brief));
    WordsAreLower(brief);
    JoinedIsKebab(Words(brief));
    JoinedIsEmptyIff(Words(brief));
    if |full| > MAX_CHANGE_ID_LEN {
      CapCutsAtLastHyphen(full);
    }
  }

  lemma {:induction false} WordsIffWordChar(s: string)
    ensures Words(s) != [] <==> exists i :: 0 <= i < |s| && IsWordChar(s[i])
  {
    if s != "" {
      var before := s[..|s| - 1];
      WordsIffWordChar(before);
      if i :| 0 <= i < |before| && IsWordChar(before[i]) {
        assert s[i] == before[i];
      }
      if i :| 0 <= i < |s| && IsWordChar(s[i]) {
        assert i < |before| ==> before[i] == s[i];
      }
    }
  }

  /** An id is a prefix of the hyphenated words, at most 48 long, without a leading, trailing
      or doubled hyphen, and empty exactly when the brief has no ASCII letter or digit. */
  lemma DerivedMeans(brief: string)
    ensures var id := Derived(brief);
      && id <= Joined(Words(brief)) && |id| <= 48 && Kebab(id)
      && (id == "" <==> forall i :: 0 <= i < |brief| ==> !IsWordChar(brief[i]))
      && (|Joined(Words(brief))| <= 48 ==> id == Joined(Words(brief)))
  {
    DerivedIsKebab(brief);
    WordsIffWordChar(brief);
  }

  // ---- the words are what they should be

  function Lowered(s: string): (t: string)
    ensures |t| == |s|
    ensures forall i :: 0 <= i < |s| ==> t[i] as int == if 'A' <= s[i] <= 'Z' then s[i] as int + 32 else s[i] as int
  {
    seq(|s|, i requires 0 <= i < |s| => Lower(s[i]))
  }

  /** A stretch of a brief, from `lo` up to before `hi`. */
  datatype Span = Span(lo: nat, hi: nat)

  predicate InSpan(r: Span, k: int) {
    r.lo <= k < r.hi
  }

  /** ASCII letters and digits only, and none right before or right after. */
  ghost predicate MaximalRun(s: string, r: Span) {
    && r.lo < r.hi <= |s|
    && (forall k :: InSpan(r, k) ==> 'a' <= s[k] <= 'z' || 'A' <= s[k] <= 'Z' || '0' <= s[k] <= '9')
    && (r.lo > 0 ==> !IsWordChar(s[r.lo - 1]))
    && (r.hi < |s| ==> !IsWordChar(s[r.hi]))
  }

  /** All the maximal runs of a brief, from left to right. */
  ghost predicate AreTheRuns(s: string, runs: seq<Span>) {
    && (forall i :: 0 <= i < |runs| ==> MaximalRun(s, runs[i]))
    && (forall i, j :: 0 <= i < j < |runs| ==> runs[i].hi < runs[j].lo)
    && (forall k :: 0 <= k < |s| && IsWordChar(s[k]) ==> exists i :: 0 <= i < |runs| && InSpan(runs[i], k))
  }

  /** The words spell the stretches in lower case. */
  predicate Spell(s: string, runs: seq<Span>, words: seq<string>) {
    && |words| == |runs|
    && forall i :: 0 <= i < |runs| ==> runs[i].lo < runs[i].hi <= |s| && words[i] == Lowered(s[runs[i].lo..runs[i].hi])
  }

  /** A character that is no letter or digit leaves the runs as they are. */
  lemma RunsSkip(before: string, c: char, runs: seq<Span>)
    requires AreTheRuns(before, runs) && !IsWordChar(c)
    ensures AreTheRuns(before + [c], runs)
  {
    var s := before + [c];
    forall i | 0 <= i < |runs| ensures MaximalRun(s, runs[i]) {
      assert MaximalRun(before, runs[i]);
    }
  }

  lemma LastRunReaches(s: string, runs: seq<Span>)
    requires AreTheRuns(s, runs) && s != "" && IsWordChar(s[|s| - 1])
    ensures runs != [] && runs[|runs| - 1].hi == |s|
  {
    var i :| 0 <= i < |runs| && InSpan(runs[i], |s| - 1);
    assert MaximalRun(s, runs[i]) && MaximalRun(s, runs[|runs| - 1]);
  }

  function Longer(runs: seq<Span>): seq<Span>
    requires runs != []
  {
    runs[|runs| - 1 := runs[|runs| - 1].(hi := runs[|runs| - 1].hi + 1)]
  }

  lemma LongerIsMaximal(before: string, c: char, r: Span)
    requires MaximalRun(before, r) && r.hi == |before| && IsWordChar(c)
    ensures MaximalRun(before + [c], r.(hi := r.hi + 1))
  {
    var s, r' := before + [c], r.(hi := r.hi + 1);
    forall k | InSpan(r', k) ensures IsWordChar(s[k]) {
      assert k < |before| ==> InSpan(r, k);
    }
  }

  lemma EarlierStaysMaximal(before: string, c: char, r: Span)
    requires MaximalRun(before, r) && r.hi < |before|
    ensures MaximalRun(before + [c], r)
  {
  }

  lemma LongerCovers(before: string, c: char, runs: seq<Span>)
    requires AreTheRuns(before, runs) && runs != [] && runs[|runs| - 1].hi == |before|
    ensures forall k :: 0 <= k <= |before| && IsWordChar((before + [c])[k]) ==>
      exists i :: 0 <= i < |runs| && InSpan(Longer(runs)[i], k)
  {
    var last := |runs| - 1;
    forall k | 0 <= k <= |before| && IsWordChar((before + [c])[k]) ensures exists i :: 0 <= i < |runs| && InSpan(Longer(runs)[i], k) {
      if k < |before| {
        var i :| 0 <= i < |runs| && InSpan(runs[i], k);
        assert InSpan(Longer(runs)[i], k);
      } else {
        assert MaximalRun(before, runs[last]) && InSpan(Longer(runs)[last], k);
      }
    }
  }

  /** One right after another extends the last run. */
  lemma RunsExtend(before: string, c: char, runs: seq<Span>)
    requires AreTheRuns(before, runs) && IsWordChar(c) && runs != [] && runs[|runs| - 1].hi == |before|
    ensures AreTheRuns(before + [c], Longer(runs))
  {
    var s, last, more := before + [c], |runs| - 1, Longer(runs);
    forall j | 0 <= j < |more| ensures MaximalRun(s, more[j]) {
      assert MaximalRun(before, runs[j]);
      if j == last {
        LongerIsMaximal(before, c, runs[j]);
      } else {
        assert runs[j].hi < runs[last].lo && MaximalRun(before, runs[last]);
        EarlierStaysMaximal(before, c, runs[j]);
      }
    }
    LongerCovers(before, c, runs);
  }

  lemma OneMoreCovers(before: string, c: char, runs: seq<Span>)
    requires AreTheRuns(before, runs)
    ensures var more := runs + [Span(|before|, |before| + 1)];
      forall k :: 0 <= k <= |before| && IsWordChar((before + [c])[k]) ==> exists i :: 0 <= i < |more| && InSpan(more[i], k)
  {
    var more := runs + [Span(|before|, |before| + 1)];
    forall k | 0 <= k <= |before| && IsWordChar((before + [c])[k]) ensures exists i :: 0 <= i < |more| && InSpan(more[i], k) {
      if k < |before| {
        var i :| 0 <= i < |runs| && InSpan(runs[i], k);
        assert InSpan(more[i], k);
      } else {
        assert InSpan(more[|runs|], k);
      }
    }
  }

  /** Any other starts a run of its own. */
  lemma RunsStart(before: string, c: char, runs: seq<Span>)
    requires AreTheRuns(before, runs) && IsWordChar(c) && (before != "" ==> !IsWordChar(before[|before| - 1]))
    ensures AreTheRuns(before + [c], runs + [Span(|before|, |before| + 1)])
  {
    var s, n := before + [c], |before|;
    var more := runs + [Span(n, n + 1)];
    forall j | 0 <= j < |more| ensures MaximalRun(s, more[j]) && (j < |runs| ==> more[j].hi < n) {
      if j < |runs| {
        assert MaximalRun(before, runs[j]) && InSpan(runs[j], runs[j].hi - 1);
        EarlierStaysMaximal(before, c, runs[j]);
      }
    }
    OneMoreCovers(before, c, runs);
  }

  lemma SpellStill(before: string, c: char, runs: seq<Span>, words: seq<string>)
    requires Spell(before, runs, words)
    ensures Spell(before + [c], runs, words)
  {
    forall i | 0 <= i < |runs| ensures words[i] == Lowered((before + [c])[runs[i].lo..runs[i].hi]) {
      assert (before + [c])[runs[i].lo..runs[i].hi] == before[runs[i].lo..runs[i].hi];
    }
  }

  lemma SpellExtends(before: string, c: char, runs: seq<Span>, words: seq<string>)
    requires Spell(before, runs, words) && runs != [] && runs[|runs| - 1].hi == |before|
    ensures Spell(before + [c], Longer(runs), words[|words| - 1 := words[|words| - 1] + [Lower(c)]])
  {
    SpellStill(before, c, runs, words);
    var lo := runs[|runs| - 1].lo;
    assert (before + [c])[lo..|before| + 1] == before[lo..|before|] + [c];
    assert Lowered(before[lo..|before|] + [c]) == Lowered(before[lo..|before|]) + [Lower(c)];
  }

  lemma SpellStarts(before: string, c: char, runs: seq<Span>, words: seq<string>)
    requires Spell(before, runs, words)
    ensures Spell(before + [c], runs + [Span(|before|, |before| + 1)], words + [[Lower(c)]])
  {
    SpellStill(before, c, runs, words);
    assert (before + [c])[|before|..|before| + 1] == [c];
    assert Lowered([c]) == [Lower(c)];
  }

  lemma RunsStep(before: string, c: char, runs: seq<Span>) returns (runs': seq<Span>)
    requires AreTheRuns(before, runs)
    ensures AreTheRuns(before + [c], runs')
    ensures GoesOn(before) ==> runs != [] && runs[|runs| - 1].hi == |before|
    ensures runs' == if !IsWordChar(c) then runs else if GoesOn(before) then Longer(runs)
                     else runs + [Span(|before|, |before| + 1)]
  {
    if GoesOn(before) {
      LastRunReaches(before, runs);
    }
    if !IsWordChar(c) {
      RunsSkip(before, c, runs);
      runs' := runs;
    } else if GoesOn(before) {
      RunsExtend(before, c, runs);
      runs' := Longer(runs);
    } else {
      RunsStart(before, c, runs);
      runs' := runs + [Span(|before|, |before| + 1)];
    }
  }

  lemma SpellStep(before: string, c: char, runs: seq<Span>, runs': seq<Span>)
    requires Spell(before, runs, Words(before))
    requires GoesOn(before) ==> runs != [] && runs[|runs| - 1].hi == |before|
    requires runs' == if !IsWordChar(c) then runs else if GoesOn(before) then Longer(runs)
                      else runs + [Span(|before|, |before| + 1)]
    ensures Spell(before + [c], runs', Words(before + [c]))
  {
    WordsOfNext(before, c);
    if !IsWordChar(c) {
      SpellStill(before, c, runs, Words(before));
    } else if GoesOn(before) {
      SpellExtends(before, c, runs, Words(before));
    } else {
      SpellStarts(before, c, runs, Words(before));
    }
  }

  /** The words are the maximal runs of letters and digits of the brief, all of them, from
      left to right and in lower case. */
  lemma {:induction false} WordsAreRuns(s: string) returns (runs: seq<Span>)
    ensures AreTheRuns(s, runs) && Spell(s, runs, Words(s))
  {
    if s == "" {
      runs := [];
    } else {
      var before, c := s[..|s| - 1], s[|s| - 1];
      var earlier := WordsAreRuns(before);
      runs := RunsStep(before, c, earlier);
      SpellStep(before, c, earlier, runs);
      assert s == before + [c];
    }
  }

  // ---- validation and deriving again

  predicate Validates(id: string) {
    && id != "" && '/' !in id && '\\' !in id && id != "."
    && forall i :: 0 <= i < |id| - 1 ==> !(id[i] == '.' && id[i + 1] == '.')
  }

  /** A derived id always passes the validation of ids that callers name. */
  lemma DerivedValidates(brief: string)
    requires exists i :: 0 <= i < |brief| && IsWordChar(brief[i])
    ensures Validates(Derived(brief)) && Derived(brief) != "" && '/' !in Derived(brief) && '\\' !in Derived(brief)
    ensures '.' !in Derived(brief)
  {
    DerivedMeans(brief);
    var id := Derived(brief);
    assert id[0] != '.';
  }

  /** An id is refused exactly when it is empty, holds a separator of either kind or two dots
      in a row, or is a single dot. */
  lemma ValidatesMeans(id: string)
    ensures !Validates(id) <==>
      id == "" || '/' in id || '\\' in id || id == "." || exists a, b :: id == a + ".." + b
  {
    if i :| 0 <= i < |id| - 1 && id[i] == '.' && id[i + 1] == '.' {
      assert id == id[..i] + ".." + id[i + 2..];
    }
    if a, b :| id == a + ".." + b {
      assert id[|a|] == '.' && id[|a| + 1] == '.';
    }
  }

  /** What Joined(Words(s)) is for a hyphenated s: s without a hyphen at its end. */
  function Bare(s: string): string {
    if s != "" && s[|s| - 1] == '-' then s[..|s| - 1] else s
  }

  lemma HyphenatedBefore(s: string)
    requires Hyphenated(s) && s != ""
    ensures var before, c := s[..|s| - 1], s[|s| - 1];
      && Hyphenated(before) && s == before + [c] && IdChar(c)
      && (if before == "" then c != '-' else IdChar(before[|before| - 1]) && (c == '-' ==> before[|before| - 1] != '-'))
  {
  }

  /** What the next character does to a hyphenated string without its last hyphen. */
  lemma BareNext(before: string, c: char)
    requires IdChar(c) && before != "-"
    requires if before == "" then c != '-' else IdChar(before[|before| - 1]) && (c == '-' ==> before[|before| - 1] != '-')
    ensures Bare(before + [c]) ==
      if !IsWordChar(c) then Bare(before)
      else if GoesOn(before) || Bare(before) == "" then Bare(before) + [Lower(c)]
      else Bare(before) + "-" + [Lower(c)]
  {
    assert (before + [c])[..|before|] == before;
    if before != "" && before[|before| - 1] == '-' {
      assert before[..|before| - 1] + "-" == before;
    }
  }

  lemma {:induction false} HyphenatedIsJoined(s: string)
    requires Hyphenated(s)
    ensures Joined(Words(s)) == Bare(s)
  {
    if s != "" {
      HyphenatedBefore(s);
      HyphenatedIsJoined(s[..|s| - 1]);
      JoinedNext(s[..|s| - 1], s[|s| - 1]);
      BareNext(s[..|s| - 1], s[|s| - 1]);
    }
  }

  /** Deriving an id from an id gives that id. */
  lemma DerivingAgainChangesNothing(brief: string)
    ensures Derived(Derived(brief)) == Derived(brief)
  {
    DerivedMeans(brief);
    HyphenatedIsJoined(Derived(brief));
  }
}
