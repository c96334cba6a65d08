/** The GUI's tab list: each session projected to the row the window draws, the
    host-core ping predicates, and the tab sort. */
module View {
  import opened Protocol
  import opened MergeSpec
  import opened Ordering

  /** Everything a tab shows that mute, solo and focus never touch. */
  datatype TabFacts = TabFacts(
    sessionId: Id,
    title: string,
    state: State,
    urgency: Option<Urgency>,
    confidence: Option<Confidence>,
    waitingSince: Option<int>,
    runCount: nat,
    lastMessage: Option<string>,
    details: string)

  datatype Tab = Tab(facts: TabFacts, muted: bool, soloed: bool, unread: bool) {
    function Id(): Protocol.Id { facts.sessionId }
    predicate Attention() { facts.state == Waiting }
  }

  type Tabs = seq<Tab>

  // ------------------------------------------------------------ projection

  /** The run that owns the rolled-up state, else the first. */
  function RolledUpRun(runs: seq<AgentRun>, state: State): Option<AgentRun> {
    if exists i :: 0 <= i < |runs| && runs[i].state == state then Some(FirstIn(runs, state))
    else if runs != [] then Some(runs[0])
    else None
  }

  function FirstIn(runs: seq<AgentRun>, state: State): AgentRun
    requires exists i :: 0 <= i < |runs| && runs[i].state == state
  {
    if runs[0].state == state then runs[0]
    else
      assert exists i :: 0 <= i < |runs[1..]| && runs[1..][i].state == state by {
        var i :| 0 <= i < |runs| && runs[i].state == state;
        assert runs[1..][i - 1] == runs[i];
      }
      FirstIn(runs[1..], state)
  }

  predicate WaitsWith(run: AgentRun, confidence: Confidence) {
    run.state == Waiting && run.confidence == confidence
  }

  /** The least trustworthy signal among the waiting runs. */
  function WorstConfidence(runs: seq<AgentRun>): Option<Confidence> {
    if exists i :: 0 <= i < |runs| && WaitsWith(runs[i], Inferred) then Some(Inferred)
    else if exists i :: 0 <= i < |runs| && WaitsWith(runs[i], High) then Some(High)
    else None
  }

  function EarliestSince(runs: seq<AgentRun>): Option<int> {
    if runs == [] then None
    else
      var last := runs[|runs| - 1];
      var prev := EarliestSince(runs[..|runs| - 1]);
      if last.state != Waiting || last.waitingSince.None? then prev
      else if prev.Some? && prev.value <= last.waitingSince.value then prev
      else last.waitingSince
  }

  predicate WaitsSince(run: AgentRun, since: int) {
    run.state == Waiting && run.waitingSince == Some(since)
  }

  /** The stamp shown is one a waiting run carries, and no waiting run's is earlier. */
  lemma {:induction false} EarliestSinceMeaning(runs: seq<AgentRun>)
    ensures EarliestSince(runs).Some? ==>
      exists i :: 0 <= i < |runs| && WaitsSince(runs[i], EarliestSince(runs).value)
    ensures forall i, w :: 0 <= i < |runs| && WaitsSince(runs[i], w) ==>
      EarliestSince(runs).Some? && EarliestSince(runs).value <= w
  {
    if runs != [] {
      var n := |runs| - 1;
      var init := runs[..n];
      EarliestSinceMeaning(init);
      assert forall i :: 0 <= i < n ==> init[i] == runs[i];
      if EarliestSince(init).Some? {
        var i :| 0 <= i < n && WaitsSince(init[i], EarliestSince(init).value);
        assert WaitsSince(runs[i], EarliestSince(init).value);
      }
      if runs[n].waitingSince.Some? && runs[n].state == Waiting {
        assert WaitsSince(runs[n], runs[n].waitingSince.value);
      }
    }
  }

  method WaitingConfidenceAndSince(runs: seq<AgentRun>) returns (conf: Option<Confidence>, since: Option<int>)
    ensures conf == WorstConfidence(runs)
    ensures since == EarliestSince(runs)
  {
    conf, since := None, None;
    for i := 0 to |runs|
      invariant conf == WorstConfidence(runs[..i])
      invariant since == EarliestSince(runs[..i])
    {
      var r := runs[i];
      var init := runs[..i];
      assert runs[..i + 1][..i] == init && runs[..i + 1] == init + [r];
      WorstConfidenceSnoc(init, r);
      if r.state == Waiting {
        conf := if conf == Some(Inferred) || r.confidence == Inferred then Some(Inferred) else Some(High);
        if r.waitingSince.Some? {
          var w := r.waitingSince.value;
          since := if since.Some? && since.value <= w then since else Some(w);
        }
      }
    }
    assert runs[..|runs|] == runs;
  }

  lemma WorstConfidenceSnoc(init: seq<AgentRun>, r: AgentRun)
    ensures WorstConfidence(init + [r]) ==
      if r.state != Waiting then WorstConfidence(init)
      else if WorstConfidence(init) == Some(Inferred) || r.confidence == Inferred then Some(Inferred)
      else Some(High)
  {
    var all := init + [r];
    assert forall i :: 0 <= i < |init| ==> all[i] == init[i];
    assert all[|init|] == r;
  }

  function TabOf(s: Session): Tab {
    var owner := RolledUpRun(s.runs, s.rollupState);
    Tab(TabFacts(s.sessionId, s.title, s.rollupState, s.rollupUrgency, WorstConfidence(s.runs),
                 EarliestSince(s.runs), |s.runs|,
                 if owner.Some? then owner.value.lastMessage else None, s.details),
        s.muted, s.soloed, s.unread)
  }

  /** The run a tab speaks for: the first one in the rolled-up state, or simply the first if
      none is in it. */
  predicate SpokenFor(runs: seq<AgentRun>, state: State, i: int) {
    && 0 <= i < |runs|
    && (runs[i].state == state || (i == 0 && forall j :: 0 <= j < |runs| ==> runs[j].state != state))
    && forall j :: 0 <= j < i ==> runs[j].state != state
  }

  lemma {:induction false} FirstInMeaning(runs: seq<AgentRun>, state: State)
    requires exists i :: 0 <= i < |runs| && runs[i].state == state
    ensures exists i :: SpokenFor(runs, state, i) && FirstIn(runs, state) == runs[i]
  {
    if runs[0].state == state {
      assert SpokenFor(runs, state, 0);
    } else {
      var rest := runs[1..];
      var i :| 0 <= i < |runs| && runs[i].state == state;
      assert rest[i - 1].state == state;
      FirstInMeaning(rest, state);
      var k :| SpokenFor(rest, state, k) && FirstIn(rest, state) == rest[k];
      assert rest[k].state == state;
      forall j | 0 <= j < k + 1 ensures runs[j].state != state {
        if j > 0 { assert rest[j - 1] == runs[j]; }
      }
      assert SpokenFor(runs, state, k + 1) && runs[k + 1] == rest[k];
    }
  }

  /** The least trustworthy confidence among the waiting runs. */
  predicate ConfidenceOfWaiting(runs: seq<AgentRun>, c: Option<Confidence>) {
    && (c.None? <==> forall i :: 0 <= i < |runs| ==> runs[i].state != Waiting)
    && (c == Some(Inferred) <==> exists i :: 0 <= i < |runs| && WaitsWith(runs[i], Inferred))
  }

  lemma WorstConfidenceMeaning(runs: seq<AgentRun>)
    ensures ConfidenceOfWaiting(runs, WorstConfidence(runs))
  {
    if i :| 0 <= i < |runs| && runs[i].state == Waiting {
      assert WaitsWith(runs[i], Inferred) || WaitsWith(runs[i], High);
    }
  }

  predicate SinceOfWaiting(runs: seq<AgentRun>, since: Option<int>) {
    && (since.Some? ==> exists i :: 0 <= i < |runs| && WaitsSince(runs[i], since.value))
    && (forall i :: 0 <= i < |runs| && runs[i].state == Waiting && runs[i].waitingSince.Some? ==>
          since.Some? && since.value <= runs[i].waitingSince.value)
  }

  lemma SinceMeaning(runs: seq<AgentRun>)
    ensures SinceOfWaiting(runs, EarliestSince(runs))
  {
    EarliestSinceMeaning(runs);
    hide EarliestSince;
    forall i | 0 <= i < |runs| && runs[i].state == Waiting && runs[i].waitingSince.Some?
      ensures EarliestSince(runs).Some? && EarliestSince(runs).value <= runs[i].waitingSince.value {
      assert WaitsSince(runs[i], runs[i].waitingSince.value);
    }
  }

  lemma RolledUpRunMeaning(runs: seq<AgentRun>, state: State)
    ensures RolledUpRun(runs, state).None? <==> runs == []
    ensures runs != [] ==> exists i :: SpokenFor(runs, state, i) && RolledUpRun(runs, state) == Some(runs[i])
  {
    hide FirstIn;
    if exists i :: 0 <= i < |runs| && runs[i].state == state {
      FirstInMeaning(runs, state);
    } else if runs != [] {
      assert SpokenFor(runs, state, 0);
    }
  }

  /** What a tab shows of its session. */
  lemma TabShows(s: Session)
    ensures var t := TabOf(s);
      && t.facts.sessionId == s.sessionId && t.facts.title == s.title && t.facts.details == s.details
      && t.facts.state == s.rollupState && t.facts.urgency == s.rollupUrgency && t.facts.runCount == |s.runs|
      && ConfidenceOfWaiting(s.runs, t.facts.confidence) && SinceOfWaiting(s.runs, t.facts.waitingSince)
      && (s.runs == [] ==> t.facts.lastMessage == None)
      && (s.runs != [] ==>
            exists i :: SpokenFor(s.runs, s.rollupState, i) && t.facts.lastMessage == s.runs[i].lastMessage)
      && t.muted == s.muted && t.soloed == s.soloed && t.unread == s.unread
  {
    hide RolledUpRun, WorstConfidence, ConfidenceOfWaiting, EarliestSince, SinceOfWaiting;
    WorstConfidenceMeaning(s.runs);
    SinceMeaning(s.runs);
    RolledUpRunMeaning(s.runs, s.rollupState);
  }

  /** The reduced inbox, in the Hub's order. */
  function ViewOf(h: Hub): (tabs: Tabs)
    requires LockStep(h.sessions, h.order)
    ensures |tabs| == |h.order|
    ensures forall i :: 0 <= i < |tabs| ==> tabs[i] == TabOf(h.sessions[h.order[i]])
  {
    seq(|h.order|, i requires 0 <= i < |h.order| => TabOf(h.sessions[h.order[i]]))
  }

  ghost predicate DistinctTabs(tabs: Tabs) {
    forall i, j :: 0 <= i < j < |tabs| ==> tabs[i].Id() != tabs[j].Id()
  }

  // ---------------------------------------------------------- ping rules

  predicate TabSoloed(tabs: Tabs) {
    exists i :: 0 <= i < |tabs| && tabs[i].soloed
  }

  predicate PingSuppressed(tab: Tab, tabs: Tabs) {
    if !tab.Attention() then true
    else if TabSoloed(tabs) then !tab.soloed
    else tab.muted
  }

  predicate ShouldPing(tab: Tab, tabs: Tabs) {
    tab.Attention() && !PingSuppressed(tab, tabs)
  }

  // ------------------------------------------------------------- tab sort

  function UrgencySortRank(u: Option<Urgency>): nat {
    match u
    case Some(Approval) => 4
    case Some(Question) => 3
    case Some(IdleDone) => 2
    case Some(NoUrgency) => 1
    case None => 0
  }

  /** Age against an injected clock; absent stamps and a clock that has not passed
      the stamp count as zero. */
  function WaitingAge(since: Option<int>, now: Option<int>): int {
    if since.None? || now.None? || now.value <= since.value then 0 else now.value - since.value
  }

  /** `a` sorts strictly ahead of `b`: unread first, then urgency, then age. */
  predicate TabBefore(a: Tab, b: Tab, now: Option<int>) {
    var ra, rb := UrgencySortRank(a.facts.urgency), UrgencySortRank(b.facts.urgency);
    || (a.unread && !b.unread)
    || (a.unread == b.unread && ra > rb)
    || (a.unread == b.unread && ra == rb
        && WaitingAge(a.facts.waitingSince, now) > WaitingAge(b.facts.waitingSince, now))
  }

  function BeforeAt(now: Option<int>): (Tab, Tab) -> bool {
    (a, b) => TabBefore(a, b, now)
  }

  function SortedTabs(tabs: Tabs, now: Option<int>): Tabs {
    StableSort(tabs, BeforeAt(now))
  }

  lemma BeforeIsWeakOrder(now: Option<int>)
    ensures WeakOrder(BeforeAt(now))
  {
  }

  /** Sort the rows in place. The clauses fix the result: it is `SortedTabs`. */
  method SortTabs(tabs: array<Tab>, now: Option<int>)
    modifies tabs
    ensures multiset(tabs[..]) == multiset(old(tabs[..]))
    ensures Sorted(tabs[..], BeforeAt(now))
    ensures forall i, j :: 0 <= i < j < tabs.Length ==>
      MayPrecede(tabs[i].unread, tabs[i].facts, tabs[j].unread, tabs[j].facts, now)
    ensures forall t :: Ties(tabs[..], t, BeforeAt(now)) == Ties(old(tabs[..]), t, BeforeAt(now))
  {
    hide Ties, TabBefore, MayPrecede;
    ghost var before, was := BeforeAt(now), tabs[..];
    BeforeIsWeakOrder(now);
    for i := 0 to tabs.Length
      invariant StablyPermutes(tabs[..], was, before)
      invariant Sorted(tabs[..i], before)
    {
      var j := i;
      assert tabs[..][..i] == tabs[..i];
      while j > 0 && TabBefore(tabs[j], tabs[j - 1], now)
        invariant 0 <= j <= i
        invariant StablyPermutes(tabs[..], was, before)
        invariant Inserting(tabs[..], i, j, before)
      {
        ghost var here := tabs[..];
        InsertingMoves(here, i, j, before);
        tabs[j - 1], tabs[j] := tabs[j], tabs[j - 1];
        assert tabs[..] == Swapped(here, j);
        j := j - 1;
      }
      InsertingEnds(tabs[..], i, j, before);
      assert tabs[..][..i + 1] == tabs[..i + 1];
    }
    assert tabs[..tabs.Length] == tabs[..];
    forall i, j | 0 <= i < j < tabs.Length
      ensures MayPrecede(tabs[i].unread, tabs[i].facts, tabs[j].unread, tabs[j].facts, now) {
      SortedRowsInOrder(tabs[..], now, i, j);
    }
  }

  /** The stable sort of the rows: a permutation, in descending order, that never
      reorders ties; and nothing else is one. */
  lemma SortTabsIsStable(tabs: Tabs, now: Option<int>)
    ensures multiset(SortedTabs(tabs, now)) == multiset(tabs)
    ensures |SortedTabs(tabs, now)| == |tabs|
    ensures Sorted(SortedTabs(tabs, now), BeforeAt(now))
    ensures forall t :: Ties(SortedTabs(tabs, now), t, BeforeAt(now)) == Ties(tabs, t, BeforeAt(now))
  {
    hide TabBefore;
    BeforeIsWeakOrder(now);
    StableSortIsStable(tabs, BeforeAt(now));
  }

  lemma SortedTabsIsUnique(tabs: Tabs, sorted: Tabs, now: Option<int>)
    requires Sorted(sorted, BeforeAt(now))
    requires forall t :: Ties(sorted, t, BeforeAt(now)) == Ties(tabs, t, BeforeAt(now))
    ensures sorted == SortedTabs(tabs, now)
  {
    hide TabBefore;
    BeforeIsWeakOrder(now);
    StableSortIsStable(tabs, BeforeAt(now));
    StableSortIsUnique(sorted, SortedTabs(tabs, now), BeforeAt(now));
  }

  // ------------------------------------------------- the order, written out

  /** Approval is the most urgent, then question, idle-done, the explicit none, absence. */
  predicate NoLessUrgent(a: Option<Urgency>, b: Option<Urgency>) {
    match b
    case Some(Approval) => a == Some(Approval)
    case Some(Question) => a == Some(Approval) || a == Some(Question)
    case Some(IdleDone) => a == Some(Approval) || a == Some(Question) || a == Some(IdleDone)
    case Some(NoUrgency) => a != None
    case None => true
  }

  predicate ClockHasPassed(since: Option<int>, now: Option<int>) {
    since.Some? && now.Some? && since.value < now.value
  }

  /** Row `a` may stand ahead of row `b`: an unread row is never behind a read one; with
      equal flags a row is never behind a less urgent one; and with equal urgency, nobody
      stands ahead of a row whose stamp the clock has passed but rows stamped no later. */
  predicate MayPrecede(aUnread: bool, a: TabFacts, bUnread: bool, b: TabFacts, now: Option<int>) {
    && (bUnread ==> aUnread)
    && (aUnread == bUnread ==> NoLessUrgent(a.urgency, b.urgency))
    && (aUnread == bUnread && a.urgency == b.urgency && ClockHasPassed(b.waitingSince, now) ==>
          a.waitingSince.Some? && a.waitingSince.value <= b.waitingSince.value)
  }

  /** Any two rows of a sorted list stand as they may. */
  lemma SortedRowsInOrder(rows: Tabs, now: Option<int>, i: nat, j: nat)
    requires Sorted(rows, BeforeAt(now)) && i < j < |rows|
    ensures MayPrecede(rows[i].unread, rows[i].facts, rows[j].unread, rows[j].facts, now)
  {
    assert !BeforeAt(now)(rows[j], rows[i]);
  }

  /** Nothing tells the two rows apart for the sort. */
  predicate NothingBetween(a: Tab, b: Tab, now: Option<int>) {
    && a.unread == b.unread && a.facts.urgency == b.facts.urgency
    && (a.facts.waitingSince == b.facts.waitingSince
        || (!ClockHasPassed(a.facts.waitingSince, now) && !ClockHasPassed(b.facts.waitingSince, now)))
  }

  /** Such rows keep their order. */
  lemma EqualRowsKeepOrder(tabs: Tabs, now: Option<int>, a: Tab, b: Tab)
    requires NothingBetween(a, b, now)
    ensures Ahead(SortedTabs(tabs, now), a, b) <==> Ahead(tabs, a, b)
  {
    assert Tied(a, a, BeforeAt(now)) && Tied(b, a, BeforeAt(now));
    SortTabsIsStable(tabs, now);
    TiesKeepOrder(tabs, a, BeforeAt(now), a, b);
    TiesKeepOrder(SortedTabs(tabs, now), a, BeforeAt(now), a, b);
  }

  // --------------------------------------------------- the clock and the sort

  /** Between two instants (none meaning no clock yet) row `j` gets ahead of row `i`:
      they tie but for age, `j` began to wait in between, and `i` carries no stamp or
      a later one. */
  predicate Overtakes(tabs: Tabs, i: nat, j: nat, from: Option<int>, to: int) {
    && i < j < |tabs|
    && tabs[i].unread == tabs[j].unread
    && UrgencySortRank(tabs[i].facts.urgency) == UrgencySortRank(tabs[j].facts.urgency)
    && tabs[j].facts.waitingSince.Some?
    && var w := tabs[j].facts.waitingSince.value;
    && (from.Some? ==> from.value <= w) && w < to
    && (tabs[i].facts.waitingSince.Some? ==> tabs[i].facts.waitingSince.value > w)
  }

  lemma ClockChangesComparison(tabs: Tabs, i: nat, j: nat, from: Option<int>, to: int)
    requires i < j < |tabs| && (from.Some? ==> from.value <= to)
    ensures TabBefore(tabs[j], tabs[i], from) == TabBefore(tabs[j], tabs[i], Some(to)) <==>
        !Overtakes(tabs, i, j, from, to)
  {
  }

  lemma OvertakingShows(tabs: Tabs, i: nat, j: nat, from: Option<int>, to: int)
    requires Overtakes(tabs, i, j, from, to)
    ensures SortedTabs(tabs, from) != SortedTabs(tabs, Some(to))
  {
    var u, v := tabs[i], tabs[j];
    assert Tied(u, u, BeforeAt(from)) && Tied(v, u, BeforeAt(from));
    assert BeforeAt(Some(to))(v, u);
    SortTabsIsStable(tabs, from);
    SortTabsIsStable(tabs, Some(to));
    assert Ahead(tabs, u, v);
    TiesKeepOrder(tabs, u, BeforeAt(from), u, v);
    TiesKeepOrder(SortedTabs(tabs, from), u, BeforeAt(from), u, v);
    hide SortedTabs, TabBefore;
    var s := SortedTabs(tabs, Some(to));
    assert !Ahead(s, u, v);
  }

  /** Moving the clock forward reshuffles the rows if and only if some row overtakes an
      earlier one. */
  lemma ClockReshuffles(tabs: Tabs, from: Option<int>, to: int)
    requires from.Some? ==> from.value <= to
    ensures SortedTabs(tabs, from) != SortedTabs(tabs, Some(to)) <==>
        exists i: nat, j: nat :: Overtakes(tabs, i, j, from, to)
  {
    if i: nat, j: nat :| Overtakes(tabs, i, j, from, to) {
      OvertakingShows(tabs, i, j, from, to);
    } else {
      forall i, j | 0 <= i < j < |tabs|
        ensures BeforeAt(from)(tabs[j], tabs[i]) == BeforeAt(Some(to))(tabs[j], tabs[i]) {
        ClockChangesComparison(tabs, i, j, from, to);
      }
      StableSortAgrees(tabs, BeforeAt(from), BeforeAt(Some(to)));
    }
  }

  predicate AllWaitedBefore(tabs: Tabs, now: int) {
    forall t :: t in tabs && t.facts.waitingSince.Some? ==> t.facts.waitingSince.value < now
  }

  lemma PassedNeverOvertakes(tabs: Tabs, i: nat, j: nat, from: int, to: int)
    requires AllWaitedBefore(tabs, from)
    ensures !Overtakes(tabs, i, j, Some(from), to)
  {
    if j < |tabs| {
      var t := tabs[j];
      assert t in tabs;
    }
  }

  /** So ticking never reshuffles rows that all began to wait before: any two instants
      after every stamp give the same order. */
  lemma ClockNeverReshuffles(tabs: Tabs, now1: int, now2: int)
    requires AllWaitedBefore(tabs, now1) && AllWaitedBefore(tabs, now2)
    ensures SortedTabs(tabs, Some(now1)) == SortedTabs(tabs, Some(now2))
  {
    hide SortedTabs;
    var from, to := if now1 <= now2 then now1 else now2, if now1 <= now2 then now2 else now1;
    ClockReshuffles(tabs, Some(from), to);
    forall i: nat, j: nat ensures !Overtakes(tabs, i, j, Some(from), to) {
      PassedNeverOvertakes(tabs, i, j, from, to);
    }
  }

  /** A stamp the clock has not passed does it: whenever the clock passes it, a row that
      starts out behind an unstamped one with equal flags and urgency overtakes it. */
  lemma FutureStampReshuffles(a: Tab, b: Tab, now: int)
    requires a.unread == b.unread && a.facts.urgency == b.facts.urgency
    requires a.facts.waitingSince.None? && b.facts.waitingSince.Some? && now <= b.facts.waitingSince.value
    ensures SortedTabs([a, b], Some(now)) != SortedTabs([a, b], Some(b.facts.waitingSince.value + 1))
  {
    hide SortedTabs;
    ClockReshuffles([a, b], Some(now), b.facts.waitingSince.value + 1);
    assert Overtakes([a, b], 0, 1, Some(now), b.facts.waitingSince.value + 1);
  }
}
