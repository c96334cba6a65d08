/** The palette's greedy fuzzy matcher, and the two unread-cycling algorithms.
    Queries and targets are already case-folded. */
module Palette {
  import opened Protocol
  import opened Ordering
  import opened View

  const CONSECUTIVE_BONUS := 5
  const PREFIX_BONUS := 10
  const UNREAD_BONUS := 20

  // ------------------------------------------------------------- matching

  /** The scan's state: query characters matched, score, and last matched position. */
  datatype Scan = Scan(matched: nat, score: int, last: Option<nat>)

  function ScanNext(q: string, s: Scan, ti: nat, c: char): Scan {
    if s.matched >= |q| || c != q[s.matched] then s
    else
      Scan(s.matched + 1,
           s.score + (if ti == 0 then PREFIX_BONUS else 0)
                   + (if s.last.Some? && ti == s.last.value + 1 then CONSECUTIVE_BONUS else 0),
           Some(ti))
  }

  function ScanAll(q: string, t: string): Scan {
    if t == [] then Scan(0, 0, None)
    else ScanNext(q, ScanAll(q, t[..|t| - 1]), |t| - 1, t[|t| - 1])
  }

  function FuzzyScore(q: string, t: string): Option<int> {
    if q == [] then Some(0)
    else
      var s := ScanAll(q, t);
      if s.matched == |q| then Some(s.score) else None
  }

  method ComputeFuzzyScore(q: string, t: string) returns (score: Option<int>)
    ensures score == FuzzyScore(q, t)
  {
    if q == [] {
      return Some(0);
    }
    var qi, points := 0, 0;
    var last: Option<nat> := None;
    var ti := 0;
    while ti < |t| && qi < |q|
      invariant ti <= |t|
      invariant Scan(qi, points, last) == ScanAll(q, t[..ti])
      invariant qi <= |q|
    {
      assert t[..ti + 1][..ti] == t[..ti];
      if t[ti] == q[qi] {
        if ti == 0 {
          points := points + PREFIX_BONUS;
        }
        if last.Some? && ti == last.value + 1 {
          points := points + CONSECUTIVE_BONUS;
        }
        last := Some(ti);
        qi := qi + 1;
      }
      ti := ti + 1;
    }
    ScanStops(q, t, ti);
    score := if qi == |q| then Some(points) else None;
  }

  lemma {:induction false} ScanStops(q: string, t: string, n: nat)
    requires n <= |t| && (n == |t| || ScanAll(q, t[..n]).matched >= |q|)
    ensures ScanAll(q, t) == ScanAll(q, t[..n])
  {
    if n == |t| {
      assert t[..n] == t;
    } else {
      var init := t[..|t| - 1];
      assert init[..n] == t[..n];
      ScanStops(q, init, n);
    }
  }

  /** A match, said without the algorithm: increasing positions spelling the query. */
  ghost predicate Spells(at: seq<nat>, q: string, t: string) {
    && |at| == |q|
    && (forall k :: 0 <= k < |at| ==> at[k] < |t| && t[at[k]] == q[k])
    && (forall k, l :: 0 <= k < l < |at| ==> at[k] < at[l])
  }

  ghost predicate IsSubsequence(q: string, t: string) {
    exists at :: Spells(at, q, t)
  }

  /** The scan matches the longest query prefix there is to match, never scores more
      than a contiguous match from the start, and reaches that only by being one. */
  lemma {:induction false} ScanIsGreedy(q: string, t: string) returns (at: seq<nat>)
    ensures var s := ScanAll(q, t);
      && s.matched <= |q| && Spells(at, q[..s.matched], t)
      && (s.last == if s.matched == 0 then None else Some(at[s.matched - 1]))
      && (s.matched > 0 ==> at[s.matched - 1] + 1 >= s.matched)
      && 0 <= s.score <= (if s.matched == 0 then 0 else PREFIX_BONUS + CONSECUTIVE_BONUS * (s.matched - 1))
      && (s.matched > 0 ==>
            (s.score == PREFIX_BONUS + CONSECUTIVE_BONUS * (s.matched - 1) <==> at[s.matched - 1] + 1 == s.matched))
  {
    if t == [] {
      at := [];
    } else {
      var n := |t| - 1;
      at := ScanIsGreedy(q, t[..n]);
      var s := ScanAll(q, t[..n]);
      assert ScanAll(q, t) == ScanNext(q, s, n, t[n]);
      hide ScanAll;
      if s.matched < |q| && t[n] == q[s.matched] {
        at := at + [n];
        assert q[..s.matched + 1] == q[..s.matched] + [q[s.matched]];
      }
    }
  }

  /** No embedding gets further than the scan. */
  lemma {:induction false} ScanIsLongest(q: string, t: string, at: seq<nat>, k: nat)
    requires k <= |q| && Spells(at, q[..k], t)
    ensures ScanAll(q, t).matched >= k
  {
    if k > 0 {
      assert at[k - 1] < |t|;
      var n := |t| - 1;
      var init := t[..n];
      if at[k - 1] < n {
        assert Spells(at, q[..k], init);
        ScanIsLongest(q, init, at, k);
      } else {
        var front := at[..k - 1];
        assert q[..k][..k - 1] == q[..k - 1];
        assert forall j :: 0 <= j < k - 1 ==> at[j] < at[k - 1];
        assert Spells(front, q[..k - 1], init);
        ScanIsLongest(q, init, front, k - 1);
        assert t[n] == q[k - 1];
      }
    }
  }

  lemma SpelledFromStart(q: string, t: string, at: seq<nat>, n: nat)
    requires 0 < n <= |q| && Spells(at, q[..n], t) && at[n - 1] + 1 == n
    ensures n <= |t| && q[..n] == t[..n]
  {
    SpelledAt(at, q[..n], t, n - 1);
  }

  lemma {:induction false} SpelledAt(at: seq<nat>, q: string, t: string, k: nat)
    requires k < |at| && Spells(at, q, t) && at[k] == k
    ensures forall j :: 0 <= j <= k ==> at[j] == j
  {
    if k > 0 {
      AtLeastIndex(at, q, t, k - 1);
      SpelledAt(at, q, t, k - 1);
    }
  }

  lemma {:induction false} AtLeastIndex(at: seq<nat>, q: string, t: string, k: nat)
    requires k < |at| && Spells(at, q, t)
    ensures at[k] >= k
  {
    if k > 0 { AtLeastIndex(at, q, t, k - 1); }
  }

  lemma {:induction false} PrefixScansFully(q: string, t: string, n: nat)
    requires q <= t && n <= |q|
    ensures ScanAll(q, t[..n]).matched == n
    ensures n > 0 ==> ScanAll(q, t[..n]).last == Some(n - 1)
  {
    if n > 0 {
      assert t[..n][..n - 1] == t[..n - 1];
      PrefixScansFully(q, t, n - 1);
    }
  }

  /** Greedy matching is complete and bounded: a score exists exactly when the query
      is a subsequence; it lies between zero and the full prefix bonus, which only a
      prefix reaches. */
  lemma FuzzyScoreMeaning(q: string, t: string)
    ensures FuzzyScore(q, t).Some? <==> IsSubsequence(q, t)
    ensures q != [] && FuzzyScore(q, t).Some? ==>
      && 0 <= FuzzyScore(q, t).value <= PREFIX_BONUS + CONSECUTIVE_BONUS * (|q| - 1)
      && (FuzzyScore(q, t).value == PREFIX_BONUS + CONSECUTIVE_BONUS * (|q| - 1) <==> q <= t)
  {
    if q == [] {
      assert Spells([], q, t);
    } else {
      var s := ScanAll(q, t);
      var at := ScanIsGreedy(q, t);
      assert q[..|q|] == q;
      if IsSubsequence(q, t) {
        var other :| Spells(other, q, t);
        ScanIsLongest(q, t, other, |q|);
      }
      if s.matched == |q| {
        assert Spells(at, q, t);
        if at[|q| - 1] + 1 == |q| { SpelledFromStart(q, t, at, |q|); }
        if q <= t {
          PrefixScansFully(q, t, |q|);
          ScanStops(q, t, |q|);
        }
      }
    }
  }

  /** Ten points for starting the target, five for each character right after the last. */
  function Points(at: seq<nat>): int {
    if at == [] then 0
    else
      var n := |at| - 1;
      Points(at[..n]) + (if at[n] == 0 then 10 else 0) + (if n > 0 && at[n] == at[n - 1] + 1 then 5 else 0)
  }

  /** Of all the ways to spell the query, the one with every character as early as it can be. */
  ghost predicate Leftmost(at: seq<nat>, q: string, t: string) {
    Spells(at, q, t) && forall other, k :: Spells(other, q, t) && 0 <= k < |at| ==> at[k] <= other[k]
  }

  /** Each of `at` is where the scan matched its next character. */
  ghost predicate MatchedAt(at: seq<nat>, q: string, t: string) {
    forall k :: 0 <= k < |at| ==> at[k] < |t| && ScanAll(q, t[..at[k]]).matched == k
  }

  lemma MatchedBefore(at: seq<nat>, q: string, t: string, c: char)
    requires MatchedAt(at, q, t)
    ensures MatchedAt(at, q, t + [c])
    ensures ScanAll(q, t).matched == |at| ==> MatchedAt(at + [|t|], q, t + [c])
  {
    hide ScanAll;
    var more := t + [c];
    assert more[..|t|] == t;
    forall k | 0 <= k < |at| ensures more[..at[k]] == t[..at[k]] {
    }
  }

  lemma PointsSnoc(at: seq<nat>, n: nat)
    ensures Points(at + [n]) ==
      Points(at) + (if n == 0 then 10 else 0) + (if at != [] && n == at[|at| - 1] + 1 then 5 else 0)
  {
    assert (at + [n])[..|at|] == at;
  }

  /** The scan's state, in terms of the positions matched so far. */
  ghost predicate ScanTells(s: Scan, at: seq<nat>, q: string, t: string) {
    && s.matched <= |q| && Spells(at, q[..s.matched], t)
    && (s.last == if s.matched == 0 then None else Some(at[s.matched - 1]))
    && s.score == Points(at)
  }

  lemma ScanSkips(s: Scan, at: seq<nat>, q: string, t: string, c: char)
    requires ScanTells(s, at, q, t)
    ensures ScanTells(s, at, q, t + [c])
  {
    hide Points;
  }

  lemma ScanTakes(s: Scan, at: seq<nat>, q: string, t: string, c: char)
    requires ScanTells(s, at, q, t) && s.matched < |q| && c == q[s.matched]
    ensures ScanTells(ScanNext(q, s, |t|, c), at + [|t|], q, t + [c])
  {
    hide Points;
    PointsSnoc(at, |t|);
    assert q[..s.matched + 1] == q[..s.matched] + [q[s.matched]];
  }

  lemma {:induction false} ScanPositions(q: string, t: string) returns (at: seq<nat>)
    ensures ScanTells(ScanAll(q, t), at, q, t) && MatchedAt(at, q, t)
  {
    if t == [] {
      at := [];
    } else {
      var n := |t| - 1;
      at := ScanPositions(q, t[..n]);
      var s := ScanAll(q, t[..n]);
      assert ScanAll(q, t) == ScanNext(q, s, n, t[n]);
      assert |at| == s.matched;
      hide ScanAll, MatchedAt, ScanTells;
      assert t == t[..n] + [t[n]];
      MatchedBefore(at, q, t[..n], t[n]);
      if s.matched < |q| && t[n] == q[s.matched] {
        ScanTakes(s, at, q, t[..n], t[n]);
        at := at + [n];
      } else {
        ScanSkips(s, at, q, t[..n], t[n]);
      }
    }
  }

  lemma {:induction false} ScanNeverShrinks(q: string, t: string, n: nat)
    requires n <= |t|
    ensures ScanAll(q, t[..n]).matched <= ScanAll(q, t).matched
  {
    if n == |t| {
      assert t[..n] == t;
    } else {
      var init := t[..|t| - 1];
      assert init[..n] == t[..n];
      ScanNeverShrinks(q, init, n);
    }
  }

  lemma NoEarlier(q: string, t: string, at: nat, other: seq<nat>, k: nat)
    requires k < |other| && Spells(other, q, t) && at <= |t| && ScanAll(q, t[..at]).matched == k
    ensures at <= other[k]
  {
    var upTo := other[k] + 1;
    if upTo <= at {
      var front := other[..k + 1];
      assert Spells(front, q[..k + 1], t[..upTo]);
      ScanIsLongest(q, t[..upTo], front, k + 1);
      assert t[..at][..upTo] == t[..upTo];
      ScanNeverShrinks(q, t[..at], upTo);
    }
  }

  /** The score is that of the leftmost spelling. */
  lemma FuzzyScoreIsLeftmost(q: string, t: string)
    requires FuzzyScore(q, t).Some?
    ensures exists at :: Leftmost(at, q, t) && FuzzyScore(q, t).value == Points(at)
  {
    if q == [] {
      assert Leftmost([], q, t);
    } else {
      var at := ScanPositions(q, t);
      hide ScanAll;
      assert q[..|q|] == q;
      forall other, k | Spells(other, q, t) && 0 <= k < |at| ensures at[k] <= other[k] {
        NoEarlier(q, t, at[k], other, k);
      }
      assert Leftmost(at, q, t);
    }
  }

  // --------------------------------------------------------- tab and palette

  function Better(a: Option<int>, b: Option<int>): Option<int> {
    if a.None? then b else if b.None? || a.value >= b.value then a else b
  }

  function BestScore(q: string, fields: seq<string>): Option<int> {
    if fields == [] then None
    else Better(BestScore(q, fields[..|fields| - 1]), FuzzyScore(q, fields[|fields| - 1]))
  }

  method TabFuzzyScore(q: string, title: string, cwds: seq<string>) returns (best: Option<int>)
    ensures best == BestScore(q, [title] + cwds)
  {
    var fields := [title] + cwds;
    best := ComputeFuzzyScore(q, title);
    assert fields[..1] == [title] && fields[..1][..0] == [];
    for i := 0 to |cwds|
      invariant best == BestScore(q, fields[..i + 1])
    {
      var s := ComputeFuzzyScore(q, cwds[i]);
      assert fields[..i + 2][..i + 1] == fields[..i + 1] && fields[..i + 2][i + 1] == cwds[i];
      if s.Some? {
        best := Some(if best.Some? && best.value > s.value then best.value else s.value);
      }
    }
    assert fields[..|cwds| + 1] == fields;
  }

  /** The best field wins, and a tab matches when some field does. */
  lemma {:induction false} BestScoreMeaning(q: string, fields: seq<string>)
    ensures BestScore(q, fields).Some? <==> exists i :: 0 <= i < |fields| && IsSubsequence(q, fields[i])
    ensures BestScore(q, fields).Some? ==>
      exists i :: 0 <= i < |fields| && FuzzyScore(q, fields[i]) == BestScore(q, fields)
    ensures forall i :: 0 <= i < |fields| && FuzzyScore(q, fields[i]).Some? ==>
      BestScore(q, fields).Some? && FuzzyScore(q, fields[i]).value <= BestScore(q, fields).value
  {
    hide FuzzyScore, IsSubsequence;
    if fields != [] {
      var n := |fields| - 1;
      var init := fields[..n];
      assert forall i :: 0 <= i < n ==> init[i] == fields[i];
      BestScoreMeaning(q, init);
      FuzzyScoreMeaning(q, fields[n]);
      if BestScore(q, init).Some? {
        var i :| 0 <= i < n && FuzzyScore(q, init[i]) == BestScore(q, init);
        assert FuzzyScore(q, fields[i]) == BestScore(q, init);
        var j :| 0 <= j < n && IsSubsequence(q, init[j]);
        assert IsSubsequence(q, fields[j]);
      }
    }
  }

  datatype Candidate = Candidate(tabIndex: nat, sessionId: Id, title: string, score: int, unread: bool)

  function CwdsOf(cwds: seq<seq<string>>, i: nat): seq<string> {
    if i < |cwds| then cwds[i] else []
  }

  function TabScore(tabs: Tabs, q: string, cwds: seq<seq<string>>, i: nat): Option<int>
    requires i < |tabs|
  {
    BestScore(q, [tabs[i].facts.title] + CwdsOf(cwds, i))
  }

  function CandidateFor(tabs: Tabs, q: string, cwds: seq<seq<string>>, i: nat): Candidate
    requires i < |tabs| && TabScore(tabs, q, cwds, i).Some?
  {
    var t := tabs[i];
    Candidate(i, t.Id(), t.facts.title,
              TabScore(tabs, q, cwds, i).value + (if t.unread then UNREAD_BONUS else 0), t.unread)
  }

  /** The matching tabs among the first `n`, in view order. */
  function Candidates(tabs: Tabs, q: string, cwds: seq<seq<string>>, n: nat): seq<Candidate>
    requires n <= |tabs|
  {
    if n == 0 then []
    else
      Candidates(tabs, q, cwds, n - 1)
        + (if TabScore(tabs, q, cwds, n - 1).Some? then [CandidateFor(tabs, q, cwds, n - 1)] else [])
  }

  predicate HigherScore(a: Candidate, b: Candidate) { a.score > b.score }

  method QueryPalette(tabs: Tabs, q: string, cwds: seq<seq<string>>) returns (ranked: seq<Candidate>)
    ensures ranked == StableSort(Candidates(tabs, q, cwds, |tabs|), HigherScore)
  {
    ranked := [];
    for i := 0 to |tabs|
      invariant ranked == Candidates(tabs, q, cwds, i)
    {
      var base := TabFuzzyScore(q, tabs[i].facts.title, CwdsOf(cwds, i));
      if base.Some? {
        var t := tabs[i];
        var score := base.value + (if t.unread then UNREAD_BONUS else 0);
        ranked := ranked + [Candidate(i, t.Id(), t.facts.title, score, t.unread)];
      }
    }
    ranked := StableSort(ranked, HigherScore);
  }

  lemma {:induction false} CandidatesMeaning(tabs: Tabs, q: string, cwds: seq<seq<string>>, n: nat)
    requires n <= |tabs|
    ensures forall c :: c in Candidates(tabs, q, cwds, n) <==>
      c.tabIndex < n && TabScore(tabs, q, cwds, c.tabIndex).Some? && c == CandidateFor(tabs, q, cwds, c.tabIndex)
  {
    if n > 0 {
      CandidatesMeaning(tabs, q, cwds, n - 1);
    }
  }

  /** The palette lists exactly the tabs with a matching field, best score first. */
  lemma PaletteMeaning(tabs: Tabs, q: string, cwds: seq<seq<string>>, i: nat)
    requires i < |tabs|
    ensures var ranked := StableSort(Candidates(tabs, q, cwds, |tabs|), HigherScore);
      && Sorted(ranked, HigherScore)
      && ((exists c :: c in ranked && c.tabIndex == i) <==>
            IsSubsequence(q, tabs[i].facts.title)
            || (i < |cwds| && exists k :: 0 <= k < |cwds[i]| && IsSubsequence(q, cwds[i][k])))
  {
    var all := Candidates(tabs, q, cwds, |tabs|);
    var ranked := StableSort(all, HigherScore);
    StableSortIsStable(all, HigherScore);
    CandidatesMeaning(tabs, q, cwds, |tabs|);
    forall c ensures c in ranked <==> c in all {
      assert c in ranked <==> c in multiset(ranked);
      assert c in all <==> c in multiset(all);
    }
    var fields := [tabs[i].facts.title] + CwdsOf(cwds, i);
    BestScoreMeaning(q, fields);
    FieldsMatch(q, tabs[i].facts.title, CwdsOf(cwds, i));
    if TabScore(tabs, q, cwds, i).Some? {
      assert CandidateFor(tabs, q, cwds, i) in all;
    }
  }

  lemma {:induction false} CandidatesAscend(tabs: Tabs, q: string, cwds: seq<seq<string>>, n: nat)
    requires n <= |tabs|
    ensures forall i, j :: 0 <= i < j < |Candidates(tabs, q, cwds, n)| ==>
      Candidates(tabs, q, cwds, n)[i].tabIndex < Candidates(tabs, q, cwds, n)[j].tabIndex
    ensures forall c :: c in Candidates(tabs, q, cwds, n) ==> c.tabIndex < n
  {
    if n > 0 { CandidatesAscend(tabs, q, cwds, n - 1); }
  }

  /** A palette row shows its tab and scores its best field, twenty more if unread. */
  ghost predicate RowOfTab(c: Candidate, tabs: Tabs, q: string, cwds: seq<seq<string>>) {
    && c.tabIndex < |tabs|
    && var t := tabs[c.tabIndex];
    && c.sessionId == t.Id() && c.title == t.facts.title && c.unread == t.unread
    && var best := BestScore(q, [t.facts.title] + if c.tabIndex < |cwds| then cwds[c.tabIndex] else []);
    best.Some? && c.score == best.value + if t.unread then 20 else 0
  }

  lemma CandidateIsRow(tabs: Tabs, q: string, cwds: seq<seq<string>>, c: Candidate)
    requires c in Candidates(tabs, q, cwds, |tabs|)
    ensures RowOfTab(c, tabs, q, cwds)
  {
    hide BestScore;
    CandidatesMeaning(tabs, q, cwds, |tabs|);
  }

  lemma EqualScoresKeepOrder(all: seq<Candidate>, i: nat, j: nat)
    requires forall k, l :: 0 <= k < l < |all| ==> all[k].tabIndex < all[l].tabIndex
    requires i <= j < |StableSort(all, HigherScore)|
    ensures var u, v := StableSort(all, HigherScore)[i], StableSort(all, HigherScore)[j];
      u in all && u.score >= v.score && (i < j && u.score == v.score ==> u.tabIndex < v.tabIndex)
  {
    StableSortIsStable(all, HigherScore);
    hide StableSort, Ties;
    var ranked := StableSort(all, HigherScore);
    var u, v := ranked[i], ranked[j];
    assert u in multiset(ranked) && v in multiset(ranked);
    assert i < j ==> !HigherScore(v, u);
    if i < j && u.score == v.score {
      assert Ahead(ranked, u, v);
      TiesKeepOrder(all, u, HigherScore, u, v);
      TiesKeepOrder(ranked, u, HigherScore, u, v);
    }
  }

  /** The rows one by one: what they show, the higher score first, and of equal scores the
      tab that stands first. */
  lemma PaletteRows(tabs: Tabs, q: string, cwds: seq<seq<string>>, i: nat, j: nat)
    requires i <= j < |StableSort(Candidates(tabs, q, cwds, |tabs|), HigherScore)|
    ensures var ranked := StableSort(Candidates(tabs, q, cwds, |tabs|), HigherScore);
      && RowOfTab(ranked[i], tabs, q, cwds)
      && ranked[i].score >= ranked[j].score
      && (i < j && ranked[i].score == ranked[j].score ==> ranked[i].tabIndex < ranked[j].tabIndex)
  {
    hide *;
    var all := Candidates(tabs, q, cwds, |tabs|);
    CandidatesAscend(tabs, q, cwds, |tabs|);
    EqualScoresKeepOrder(all, i, j);
    CandidateIsRow(tabs, q, cwds, StableSort(all, HigherScore)[i]);
  }

  lemma FieldsMatch(q: string, title: string, cwds: seq<string>)
    ensures (exists j :: 0 <= j < |[title] + cwds| && IsSubsequence(q, ([title] + cwds)[j])) <==>
      IsSubsequence(q, title) || exists k :: 0 <= k < |cwds| && IsSubsequence(q, cwds[k])
  {
    var fields := [title] + cwds;
    assert fields[0] == title && forall k :: 0 <= k < |cwds| ==> fields[k + 1] == cwds[k];
    if j :| 0 <= j < |fields| && IsSubsequence(q, fields[j]) {
      if j > 0 { assert IsSubsequence(q, cwds[j - 1]); }
    }
  }

  // ----------------------------------------------------------- cycle-unread

  /** The indices of the unread tabs, in view order. */
  function UnreadIndices(tabs: Tabs): seq<nat> {
    if tabs == [] then []
    else UnreadIndices(tabs[..|tabs| - 1]) + (if tabs[|tabs| - 1].unread then [|tabs| - 1] else [])
  }

  lemma UnreadIndicesUnfold(tabs: Tabs)
    ensures tabs == [] ==> UnreadIndices(tabs) == []
    ensures tabs != [] ==>
      var n := |tabs| - 1; UnreadIndices(tabs) == UnreadIndices(tabs[..n]) + (if tabs[n].unread then [n] else [])
  {
  }

  lemma {:induction false} UnreadIndicesMeaning(tabs: Tabs)
    ensures var u := UnreadIndices(tabs);
      && (forall k :: 0 <= k < |u| ==> u[k] < |tabs| && tabs[u[k]].unread)
      && (forall k, l :: 0 <= k < l < |u| ==> u[k] < u[l])
      && (forall i: nat :: i < |tabs| && tabs[i].unread ==> i in u)
  {
    hide UnreadIndices;
    UnreadIndicesUnfold(tabs);
    if tabs != [] {
      var n := |tabs| - 1;
      UnreadIndicesMeaning(tabs[..n]);
      assert forall i :: 0 <= i < n ==> tabs[..n][i] == tabs[i];
    }
  }

  /** Advance a cursor within the unread list; also gives the tab index. */
  function CycleUnread(tabs: Tabs, from: Option<nat>): Option<(nat, nat)> {
    var u := UnreadIndices(tabs);
    if u == [] then None
    else
      var pos := if from.None? then 0 else (from.value + 1) % |u|;
      Some((pos, u[pos]))
  }

  /** The tab `offset` places after `start`, wrapping. */
  function Around(tabs: Tabs, start: nat, offset: nat): (idx: nat)
    requires tabs != []
    ensures idx < |tabs|
  {
    (start + offset) % |tabs|
  }

  predicate UnreadAround(tabs: Tabs, start: nat, offset: nat)
    requires tabs != []
  {
    tabs[Around(tabs, start, offset)].unread
  }

  /** Scan forward, wrapping once, for the first unread tab. */
  function ScanUnread(tabs: Tabs, start: nat, offset: nat): Option<nat>
    requires offset <= |tabs|
    decreases |tabs| - offset
  {
    if offset == |tabs| then None
    else if UnreadAround(tabs, start, offset) then Some(Around(tabs, start, offset))
    else ScanUnread(tabs, start, offset + 1)
  }

  function StartAfter(from: Option<nat>): nat {
    if from.Some? then from.value + 1 else 0
  }

  function NextUnread(tabs: Tabs, from: Option<nat>): Option<nat> {
    ScanUnread(tabs, StartAfter(from), 0)
  }

  method FindNextUnread(tabs: Tabs, from: Option<nat>) returns (next: Option<nat>)
    ensures next == NextUnread(tabs, from)
  {
    var n := |tabs|;
    var start := StartAfter(from);
    for offset := 0 to n
      invariant NextUnread(tabs, from) == ScanUnread(tabs, start, offset)
    {
      var idx := Around(tabs, start, offset);
      if tabs[idx].unread {
        return Some(idx);
      }
    }
    next := None;
  }

  lemma {:induction false} ScanFinds(tabs: Tabs, start: nat, offset: nat, goal: nat)
    requires offset <= goal < |tabs| && UnreadAround(tabs, start, goal)
    requires forall o: nat :: offset <= o < goal ==> !UnreadAround(tabs, start, o)
    ensures ScanUnread(tabs, start, offset) == Some(Around(tabs, start, goal))
    decreases goal - offset
  {
    if offset < goal {
      assert !UnreadAround(tabs, start, offset);
      ScanFinds(tabs, start, offset + 1, goal);
    }
  }

  lemma AroundWraps(tabs: Tabs, start: nat, offset: nat)
    requires tabs != [] && start + offset < 2 * |tabs|
    ensures Around(tabs, start, offset) == if start + offset < |tabs| then start + offset else start + offset - |tabs|
  {
    var a, n := start + offset, |tabs|;
    if a >= n {
      assert a == n * 1 + (a - n);
    }
  }

  /** No tab strictly between two neighbouring unread indices, or before the first,
      or after the last, is unread. */
  lemma GapIsRead(tabs: Tabs, i: nat, k: int)
    requires i < |tabs| && -1 <= k < |UnreadIndices(tabs)|
    requires k >= 0 ==> UnreadIndices(tabs)[k] < i
    requires k + 1 < |UnreadIndices(tabs)| ==> i < UnreadIndices(tabs)[k + 1]
    ensures !tabs[i].unread
  {
    UnreadIndicesMeaning(tabs);
    var u := UnreadIndices(tabs);
    forall j | 0 <= j < |u| ensures u[j] != i {
      if j < k {
        assert u[j] < u[k];
      } else if j > k + 1 {
        assert u[k + 1] < u[j];
      }
    }
    assert i !in u;
  }

  lemma JumpsToNext(tabs: Tabs, p: nat)
    requires p + 1 < |UnreadIndices(tabs)|
    ensures var u := UnreadIndices(tabs); NextUnread(tabs, Some(u[p])) == Some(u[p + 1])
  {
    UnreadIndicesMeaning(tabs);
    var u := UnreadIndices(tabs);
    var start := u[p] + 1;
    var goal := u[p + 1] - start;
    forall o: nat | o < goal ensures !UnreadAround(tabs, start, o) {
      AroundWraps(tabs, start, o);
      GapIsRead(tabs, start + o, p);
    }
    AroundWraps(tabs, start, goal);
    ScanFinds(tabs, start, 0, goal);
  }

  lemma JumpsToFirst(tabs: Tabs)
    requires UnreadIndices(tabs) != []
    ensures var u := UnreadIndices(tabs);
      NextUnread(tabs, None) == Some(u[0]) && NextUnread(tabs, Some(u[|u| - 1])) == Some(u[0])
  {
    UnreadIndicesMeaning(tabs);
    var u, n := UnreadIndices(tabs), |tabs|;
    assert u[0] < n && tabs[u[0]].unread;
    forall o: nat | o < u[0] ensures !UnreadAround(tabs, 0, o) {
      AroundWraps(tabs, 0, o);
      GapIsRead(tabs, o, -1);
    }
    AroundWraps(tabs, 0, u[0]);
    ScanFinds(tabs, 0, 0, u[0]);
    var start := u[|u| - 1] + 1;
    assert u[0] < start <= n;
    var goal := n - start + u[0];
    forall o: nat | o < goal ensures !UnreadAround(tabs, start, o) {
      AroundWraps(tabs, start, o);
      if start + o < n { GapIsRead(tabs, start + o, |u| - 1); } else { GapIsRead(tabs, start + o - n, -1); }
    }
    AroundWraps(tabs, start, goal);
    ScanFinds(tabs, start, 0, goal);
  }

  /** The two cycling algorithms, one by tab index and one by cursor, go to the same
      tab: from the p-th unread tab both reach the next one, wrapping. */
  lemma CyclesAgree(tabs: Tabs, p: nat)
    requires p < |UnreadIndices(tabs)|
    ensures var u := UnreadIndices(tabs); var next := if p + 1 == |u| then 0 else p + 1;
      CycleUnread(tabs, Some(p)) == Some((next, u[next])) && NextUnread(tabs, Some(u[p])) == Some(u[next])
  {
    hide UnreadIndices, NextUnread;
    if p + 1 == |UnreadIndices(tabs)| {
      JumpsToFirst(tabs);
    } else {
      JumpsToNext(tabs, p);
    }
  }

  lemma CyclesStartAlike(tabs: Tabs)
    ensures var u := UnreadIndices(tabs);
      if u == [] then CycleUnread(tabs, None) == None && NextUnread(tabs, None) == None
      else CycleUnread(tabs, None) == Some((0, u[0])) && NextUnread(tabs, None) == Some(u[0])
  {
    if UnreadIndices(tabs) == [] {
      UnreadIndicesMeaning(tabs);
      ScanFindsNothing(tabs, 0, 0);
    } else {
      JumpsToFirst(tabs);
    }
  }

  lemma {:induction false} ScanFindsNothing(tabs: Tabs, start: nat, offset: nat)
    requires offset <= |tabs| && forall i :: 0 <= i < |tabs| ==> !tabs[i].unread
    ensures ScanUnread(tabs, start, offset) == None
    decreases |tabs| - offset
  {
    if offset < |tabs| {
      ScanFindsNothing(tabs, start, offset + 1);
    }
  }

  /** The tabs visited by `n` jumps from a tab, each starting where the last landed. */
  function Visits(tabs: Tabs, from: Option<nat>, n: nat): seq<nat> {
    if n == 0 then []
    else
      var before := Visits(tabs, from, n - 1);
      var next := NextUnread(tabs, if before == [] then from else Some(before[|before| - 1]));
      if next.None? then before else before + [next.value]
  }

  /** The cursor after `n` advances, and the tabs visited on the way. */
  function CursorVisits(tabs: Tabs, from: Option<nat>, n: nat): (Option<nat>, seq<nat>) {
    if n == 0 then (from, [])
    else
      var (cursor, before) := CursorVisits(tabs, from, n - 1);
      match CycleUnread(tabs, cursor)
      case None => (None, before)
      case Some((pos, tab)) => (Some(pos), before + [tab])
  }

  /** The unread tab a cursor stands on. */
  function TabAt(tabs: Tabs, cursor: Option<nat>): Option<nat>
    requires cursor.Some? ==> cursor.value < |UnreadIndices(tabs)|
  {
    if cursor.Some? then Some(UnreadIndices(tabs)[cursor.value]) else None
  }

  function CursorAfter(cursor: Option<nat>, m: nat): nat {
    if cursor.None? || cursor.value + 1 == m then 0 else cursor.value + 1
  }

  lemma AdvanceTogether(tabs: Tabs, cursor: Option<nat>)
    requires UnreadIndices(tabs) != [] && (cursor.Some? ==> cursor.value < |UnreadIndices(tabs)|)
    ensures var u := UnreadIndices(tabs); var next := CursorAfter(cursor, |u|);
      next < |u| && CycleUnread(tabs, cursor) == Some((next, u[next])) &&
          NextUnread(tabs, TabAt(tabs, cursor)) == Some(u[next])
  {
    hide UnreadIndices, CycleUnread, NextUnread;
    match cursor
    case None => CyclesStartAlike(tabs);
    case Some(p) => CyclesAgree(tabs, p);
  }

  /** The unread list read cyclically, from just after the cursor. */
  function Rotated(u: seq<nat>, from: Option<nat>): seq<nat>
    requires from.Some? ==> from.value < |u|
  {
    if from.None? then u else u[from.value + 1..] + u[..from.value + 1]
  }

  lemma RotatedNext(u: seq<nat>, from: Option<nat>, cursor: Option<nat>, n: nat)
    requires (from.Some? ==> from.value < |u|) && n < |u|
    requires if n == 0 then cursor == from
             else cursor.Some? && cursor.value < |u| && StandsAt(|u|, from, cursor.value, n)
    ensures var next := CursorAfter(cursor, |u|);
      StandsAt(|u|, from, next, n + 1) && next < |u| && Rotated(u, from)[n] == u[next]
  {
  }

  /** After `n` advances from `from`, the cursor is at `pos`. */
  predicate StandsAt(m: nat, from: Option<nat>, pos: nat, n: nat) {
    var start := if from.None? then 0 else from.value + 1;
    n > 0 && pos == if start + n - 1 < m then start + n - 1 else start + n - 1 - m
  }

  lemma {:induction false} VisitsRotate(tabs: Tabs, from: Option<nat>, n: nat)
    requires from.Some? ==> from.value < |UnreadIndices(tabs)|
    requires n <= |UnreadIndices(tabs)|
    ensures var u := UnreadIndices(tabs); var (cursor, visited) := CursorVisits(tabs, from, n);
      && visited == Visits(tabs, TabAt(tabs, from), n) == Rotated(u, from)[..n]
      && (if n == 0 then cursor == from else cursor.Some? && cursor.value < |u| && StandsAt(|u|, from, cursor.value, n))
      && (n > 0 ==> TabAt(tabs, cursor) == Some(visited[n - 1]))
  {
    hide UnreadIndices, CycleUnread, NextUnread, StandsAt, CursorAfter, Rotated;
    var u := UnreadIndices(tabs);
    if n > 0 {
      VisitsRotate(tabs, from, n - 1);
      var (cursor, visited) := CursorVisits(tabs, from, n - 1);
      AdvanceTogether(tabs, cursor);
      RotatedNext(u, from, cursor, n - 1);
      RotatedLength(u, from);
      TakeOneMore(Rotated(u, from), n);
    }
  }

  lemma TakeOneMore(xs: seq<nat>, n: nat)
    requires 0 < n <= |xs|
    ensures xs[..n] == xs[..n - 1] + [xs[n - 1]]
  {
  }

  lemma RotatedLength(u: seq<nat>, from: Option<nat>)
    requires from.Some? ==> from.value < |u|
    ensures |Rotated(u, from)| == |u| && multiset(Rotated(u, from)) == multiset(u)
  {
    if from.Some? {
      assert u == u[..from.value + 1] + u[from.value + 1..];
    }
  }

  /** Either way, and from any cursor, as many jumps as there are unread tabs visit
      each exactly once, in cyclic view order. */
  lemma FullCycleVisitsEachOnce(tabs: Tabs, from: Option<nat>)
    requires from.Some? ==> from.value < |UnreadIndices(tabs)|
    ensures var m := |UnreadIndices(tabs)|; var visited := Visits(tabs, TabAt(tabs, from), m);
      && visited == CursorVisits(tabs, from, m).1 == Rotated(UnreadIndices(tabs), from)
      && forall i: nat :: i < |tabs| ==> multiset(visited)[i] == if tabs[i].unread then 1 else 0
  {
    hide Visits, CursorVisits, UnreadIndices, Rotated;
    var u := UnreadIndices(tabs);
    VisitsRotate(tabs, from, |u|);
    RotatedLength(u, from);
    assert Rotated(u, from)[..|u|] == Rotated(u, from);
    UnreadIndicesMeaning(tabs);
    forall i: nat | i < |tabs| ensures multiset(u)[i] == if tabs[i].unread then 1 else 0 {
      if i in u {
        var k :| 0 <= k < |u| && u[k] == i;
        AscendingOnce(u, k);
      }
    }
  }

  lemma AscendingOnce(u: seq<nat>, k: nat)
    requires k < |u| && forall i, j :: 0 <= i < j < |u| ==> u[i] < u[j]
    ensures multiset(u)[u[k]] == 1
  {
    assert u == u[..k] + [u[k]] + u[k + 1..];
    assert u[k] !in u[..k] && u[k] !in u[k + 1..];
  }
}
