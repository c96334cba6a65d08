/** The rail's optimistic copy of the inbox, and its prediction of the Hub. */
module Rail {
  import opened Protocol
  import opened MergeSpec
  import opened Attention
  import opened Ordering
  import opened View

  /** One row as the webview consumes it. */
  datatype RenderedTab = RenderedTab(
    facts: TabFacts,
    attention: bool,
    pinging: bool,
    pingSuppressed: bool,
    muted: bool,
    soloed: bool,
    unread: bool)
  {
    function Id(): Protocol.Id { facts.sessionId }
  }

  type Rows = seq<RenderedTab>

  datatype Inbox = Inbox(tabs: Rows, waitingCount: nat, waitingTotal: nat, connected: bool)

  // ------------------------------------------------------- host rendering

  function RenderTab(t: Tab, tabs: Tabs): RenderedTab {
    RenderedTab(t.facts, t.Attention(), ShouldPing(t, tabs), t.Attention() && PingSuppressed(t, tabs),
                t.muted, t.soloed, t.unread)
  }

  function CountWhere(rows: Rows, p: RenderedTab -> bool): nat {
    if rows == [] then 0
    else CountWhere(rows[..|rows| - 1], p) + (if p(rows[|rows| - 1]) then 1 else 0)
  }

  const IsPinging := (t: RenderedTab) => t.pinging
  const IsWaiting := (t: RenderedTab) => t.attention

  function CountPinging(rows: Rows): nat { CountWhere(rows, IsPinging) }

  function CountWaiting(rows: Rows): nat { CountWhere(rows, IsWaiting) }

  function RenderAt(view: Tabs, connected: bool, now: Option<int>): Inbox {
    var tabs := SortedTabs(view, now);
    var rows := seq(|tabs|, i requires 0 <= i < |tabs| => RenderTab(tabs[i], tabs));
    Inbox(rows, CountPinging(rows), CountWaiting(rows), connected)
  }

  // ---------------------------------------------------------- rail script

  datatype Action =
    | SetMuted(sessionId: Id, on: bool)
    | SetSoloed(sessionId: Id, on: bool)
    | Acknowledge(sessionId: Id)
    | Dismiss(sessionId: Id)

  predicate RowsSoloed(rows: Rows) {
    exists i :: 0 <= i < |rows| && rows[i].soloed
  }

  /** The rail's own ping rule: the two flags count independently. */
  predicate ShouldNotifyTab(t: RenderedTab, anySoloed: bool) {
    t.attention && !t.muted && (!anySoloed || t.soloed)
  }

  function NotifyMapFor(rows: Rows, anySoloed: bool): map<Id, bool> {
    if rows == [] then map[]
    else
      var last := rows[|rows| - 1];
      NotifyMapFor(rows[..|rows| - 1], anySoloed)[last.Id() := ShouldNotifyTab(last, anySoloed)]
  }

  function ReconcileUnread(t: RenderedTab, was: bool, now: bool): bool {
    if !was && now && !t.unread then true
    else if was && !now && t.unread then false
    else t.unread
  }

  function DeriveTab(t: RenderedTab, anySoloed: bool, notify: map<Id, bool>): RenderedTab {
    var now := ShouldNotifyTab(t, anySoloed);
    var was := t.Id() in notify && notify[t.Id()];
    t.(unread := ReconcileUnread(t, was, now), pingSuppressed := t.attention && !now, pinging := now)
  }

  function DeriveTabs(rows: Rows, notify: map<Id, bool>): (derived: Rows)
    ensures |derived| == |rows|
    ensures forall i :: 0 <= i < |rows| ==> derived[i] == DeriveTab(rows[i], RowsSoloed(rows), notify)
  {
    var any := RowsSoloed(rows);
    seq(|rows|, i requires 0 <= i < |rows| => DeriveTab(rows[i], any, notify))
  }

  function EditTab(t: RenderedTab, action: Action): RenderedTab {
    match action
    case SetMuted(id, on) => if t.Id() == id then t.(muted := on, soloed := false) else t
    case SetSoloed(id, on) =>
      if on then
        if t.Id() == id then t.(soloed := true, muted := false) else t.(soloed := false)
      else if t.Id() == id then t.(soloed := false, muted := false) else t
    case Acknowledge(id) => if t.Id() == id then t.(unread := false) else t
    case Dismiss(_) => t
  }

  function EditTabs(rows: Rows, action: Action): (edited: Rows) {
    if action.Dismiss? then WithoutRow(rows, action.sessionId)
    else seq(|rows|, i requires 0 <= i < |rows| => EditTab(rows[i], action))
  }

  function WithoutRow(rows: Rows, id: Id): Rows {
    if rows == [] then []
    else
      var rest := WithoutRow(rows[..|rows| - 1], id);
      if rows[|rows| - 1].Id() == id then rest else rest + [rows[|rows| - 1]]
  }

  /** A local, optimistic mutation of the inbox. */
  function ApplyLocal(inbox: Inbox, action: Action): Inbox {
    var notify := NotifyMapFor(inbox.tabs, RowsSoloed(inbox.tabs));
    var rows := DeriveTabs(EditTabs(inbox.tabs, action), notify);
    inbox.(tabs := rows, waitingCount := CountPinging(rows), waitingTotal := CountWaiting(rows))
  }

  /** `at` lists, in order, the slots of the rows of other sessions: these are what is left. */
  ghost predicate RowsLeftAt(at: seq<nat>, before: Rows, id: Id, after: Rows) {
    && |at| == |after|
    && (forall k :: 0 <= k < |at| ==> at[k] < |before| && after[k] == before[at[k]] && before[at[k]].Id() != id)
    && (forall k, l :: 0 <= k < l < |at| ==> at[k] < at[l])
    && (forall i: nat :: i < |before| && before[i].Id() != id ==> i in at)
  }

  lemma {:induction false} WithoutRowLeaves(rows: Rows, id: Id) returns (at: seq<nat>)
    ensures RowsLeftAt(at, rows, id, WithoutRow(rows, id))
  {
    if rows == [] {
      at := [];
    } else {
      var n := |rows| - 1;
      at := WithoutRowLeaves(rows[..n], id);
      if rows[n].Id() != id { at := at + [n]; }
    }
  }

  ghost predicate SameOrder(before: Rows, after: Rows) {
    |after| == |before| && forall i :: 0 <= i < |before| ==> after[i].Id() == before[i].Id()
  }

  /** No optimistic mutation moves a row: all stay where they are, or one goes and the others
      close up. */
  lemma LocalKeepsOrder(inbox: Inbox, action: Action)
    ensures var after := ApplyLocal(inbox, action).tabs;
      if action.Dismiss? then
        exists at, left :: RowsLeftAt(at, inbox.tabs, action.sessionId, left) && SameOrder(left, after)
      else SameOrder(inbox.tabs, after)
  {
    hide NotifyMapFor, CountWhere, DeriveTab;
    if action.Dismiss? {
      var at := WithoutRowLeaves(inbox.tabs, action.sessionId);
      hide RowsLeftAt, WithoutRow;
      var left := WithoutRow(inbox.tabs, action.sessionId);
      DerivedIds(left, NotifyMapFor(inbox.tabs, RowsSoloed(inbox.tabs)));
      assert SameOrder(left, ApplyLocal(inbox, action).tabs);
    } else {
      DerivedIds(EditTabs(inbox.tabs, action), NotifyMapFor(inbox.tabs, RowsSoloed(inbox.tabs)));
    }
  }

  lemma DerivedIds(rows: Rows, notify: map<Id, bool>)
    ensures SameOrder(rows, DeriveTabs(rows, notify))
  {
  }

  /** The Hub operation a local action stands for; clearing a solo is an unmute. */
  function OpOf(action: Action): Op {
    match action
    case SetMuted(id, on) => if on then Mute(id) else Unmute(id)
    case SetSoloed(id, on) => if on then Solo(id) else Unmute(id)
    case Acknowledge(id) => Focus(id)
    case Dismiss(id) => RemoveSession(id)
  }

  // ------------------------------------------------------------ mirroring

  ghost predicate DistinctRows(rows: Rows) {
    forall i, j :: 0 <= i < j < |rows| ==> rows[i].Id() != rows[j].Id()
  }

  predicate Matches(t: RenderedTab, s: Session) {
    && t.facts == TabOf(s).facts
    && t.attention == (s.rollupState == Waiting)
    && t.muted == s.muted && t.soloed == s.soloed && t.unread == s.unread
  }

  /** One row per session, in any order, ping flags aside. */
  ghost predicate Mirrors(rows: Rows, m: Sessions) {
    && DistinctRows(rows)
    && (forall i :: 0 <= i < |rows| ==> rows[i].Id() in m && Matches(rows[i], m[rows[i].Id()]))
    && (forall id :: id in m ==> exists i :: 0 <= i < |rows| && rows[i].Id() == id)
  }

  predicate PingsByHost(t: RenderedTab, m: Sessions) {
    t.pinging == HostNotifies(m, t.Id()) && t.pingSuppressed == (t.attention && !HostNotifies(m, t.Id()))
  }

  predicate PingsByHub(t: RenderedTab, m: Sessions) {
    t.pinging == Notifies(m, t.Id()) && t.pingSuppressed == (t.attention && !Notifies(m, t.Id()))
  }

  function PingingIds(m: Sessions): set<Id> { set id | id in m && HostNotifies(m, id) }
  function WaitingIds(m: Sessions): set<Id> { set id | id in m && m[id].rollupState == Waiting }

  /** The inbox is a rendering of the Hub, up to row order. */
  ghost predicate Shows(inbox: Inbox, h: Hub) {
    && Mirrors(inbox.tabs, h.sessions)
    && (forall i :: 0 <= i < |inbox.tabs| ==> PingsByHost(inbox.tabs[i], h.sessions))
    && inbox.waitingCount == |PingingIds(h.sessions)|
    && inbox.waitingTotal == |WaitingIds(h.sessions)|
  }

  ghost predicate HasRow(rows: Rows, id: Id, p: RenderedTab -> bool) {
    exists i :: 0 <= i < |rows| && rows[i].Id() == id && p(rows[i])
  }

  /** A row count is the number of distinct sessions counted. */
  lemma {:induction false} CountIsCardinality(rows: Rows, p: RenderedTab -> bool, ids: set<Id>)
    requires DistinctRows(rows)
    requires forall id :: id in ids <==> HasRow(rows, id, p)
    ensures CountWhere(rows, p) == |ids|
  {
    if rows == [] {
      assert ids == {} by {
        assert forall id :: !HasRow(rows, id, p);
      }
    } else {
      var n := |rows| - 1;
      var init, last := rows[..n], rows[n];
      assert forall i :: 0 <= i < n ==> init[i] == rows[i];
      assert !HasRow(init, last.Id(), p);
      forall id ensures HasRow(rows, id, p) <==> HasRow(init, id, p) || (id == last.Id() && p(last)) {
        if HasRow(init, id, p) {
          var i :| 0 <= i < n && init[i].Id() == id && p(init[i]);
          assert rows[i].Id() == id && p(rows[i]);
        }
        if HasRow(rows, id, p) {
          var i :| 0 <= i < |rows| && rows[i].Id() == id && p(rows[i]);
          assert i == n || (init[i].Id() == id && p(init[i]));
        }
      }
      CountIsCardinality(init, p, ids - {last.Id()});
      assert p(last) ==> ids == (ids - {last.Id()}) + {last.Id()};
      assert !p(last) ==> ids == ids - {last.Id()};
    }
  }

  lemma MirroredCounts(rows: Rows, m: Sessions)
    requires Mirrors(rows, m)
    ensures CountWaiting(rows) == |WaitingIds(m)|
    ensures (forall i :: 0 <= i < |rows| ==> PingsByHost(rows[i], m)) ==> CountPinging(rows) == |PingingIds(m)|
  {
    forall id ensures id in WaitingIds(m) <==> HasRow(rows, id, IsWaiting) {
      if id in m {
        var i :| 0 <= i < |rows| && rows[i].Id() == id;
        assert Matches(rows[i], m[id]);
      }
    }
    CountIsCardinality(rows, IsWaiting, WaitingIds(m));
    if forall i :: 0 <= i < |rows| ==> PingsByHost(rows[i], m) {
      forall id ensures id in PingingIds(m) <==> HasRow(rows, id, IsPinging) {
        if id in m {
          var i :| 0 <= i < |rows| && rows[i].Id() == id;
          assert PingsByHost(rows[i], m);
        }
      }
      CountIsCardinality(rows, IsPinging, PingingIds(m));
    }
  }

  /** Rewriting rows one by one, ids untouched, carries a mirror along. */
  lemma MirrorsRowByRow(rows: Rows, m: Sessions, rows': Rows, m': Sessions)
    requires Mirrors(rows, m) && |rows'| == |rows| && m'.Keys == m.Keys
    requires forall i :: 0 <= i < |rows| ==> rows'[i].Id() == rows[i].Id() && Matches(rows'[i], m'[rows[i].Id()])
    ensures Mirrors(rows', m')
  {
    forall id | id in m' ensures exists i :: 0 <= i < |rows'| && rows'[i].Id() == id {
      var i :| 0 <= i < |rows| && rows[i].Id() == id;
      assert rows'[i].Id() == id;
    }
  }

  lemma MirroredSolo(rows: Rows, m: Sessions)
    requires Mirrors(rows, m)
    ensures RowsSoloed(rows) == AnySoloed(m)
  {
    if AnySoloed(m) {
      var id :| id in m && m[id].soloed;
      var i :| 0 <= i < |rows| && rows[i].Id() == id;
      assert rows[i].soloed;
    }
    if RowsSoloed(rows) {
      var i :| 0 <= i < |rows| && rows[i].soloed;
      assert m[rows[i].Id()].soloed;
    }
  }

  lemma {:induction false} NotifyMapEntries(rows: Rows, any: bool)
    requires DistinctRows(rows)
    ensures forall i :: 0 <= i < |rows| ==>
      rows[i].Id() in NotifyMapFor(rows, any) && NotifyMapFor(rows, any)[rows[i].Id()] == ShouldNotifyTab(rows[i], any)
    ensures forall id :: id in NotifyMapFor(rows, any) ==> exists i :: 0 <= i < |rows| && rows[i].Id() == id
  {
    if rows != [] {
      var n := |rows| - 1;
      var init := rows[..n];
      assert forall i :: 0 <= i < n ==> rows[i] == init[i];
      NotifyMapEntries(init, any);
    }
  }

  // -------------------------------------------------- host rendering shows

  lemma RenderShows(h: Hub, connected: bool, now: Option<int>)
    requires LockStep(h.sessions, h.order)
    ensures Shows(RenderAt(ViewOf(h), connected, now), h)
    ensures RenderAt(ViewOf(h), connected, now).connected == connected
  {
    hide SortedTabs, ViewOf, CountWhere, RenderTab, Mirrors, PingsByHost;
    var tabs := SortedTabs(ViewOf(h), now);
    SortTabsIsStable(ViewOf(h), now);
    var rows := RenderAt(ViewOf(h), connected, now).tabs;
    SortedViewTabs(h, tabs);
    RenderedRows(tabs, rows, h.sessions);
    MirroredCounts(rows, h.sessions);
  }

  /** The rendered rows are the sorted tabs, one for one, and stand as rows may. */
  lemma RenderedInOrder(view: Tabs, connected: bool, now: Option<int>, i: nat, j: nat)
    requires i <= j < |view|
    ensures |RenderAt(view, connected, now).tabs| == |SortedTabs(view, now)| == |view|
    ensures var rows, tabs := RenderAt(view, connected, now).tabs, SortedTabs(view, now);
      && rows[i].facts == tabs[i].facts
      && (i < j ==> MayPrecede(rows[i].unread, rows[i].facts, rows[j].unread, rows[j].facts, now))
  {
    hide SortedTabs, MayPrecede, TabBefore, CountWhere;
    SortTabsIsStable(view, now);
    if i < j { SortedRowsInOrder(SortedTabs(view, now), now, i, j); }
  }

  lemma RenderedRows(tabs: Tabs, rows: Rows, m: Sessions)
    requires ViewTabs(tabs, m) && |rows| == |tabs|
    requires forall i :: 0 <= i < |rows| ==> rows[i] == RenderTab(tabs[i], tabs)
    ensures Mirrors(rows, m) && forall i :: 0 <= i < |rows| ==> PingsByHost(rows[i], m)
  {
    SortedViewSolo(tabs, m);
    forall i | 0 <= i < |rows|
      ensures rows[i].Id() == tabs[i].Id() && Matches(rows[i], m[rows[i].Id()]) && PingsByHost(rows[i], m) {
      assert tabs[i] == TabOf(m[tabs[i].Id()]);
    }
    forall id | id in m ensures exists i :: 0 <= i < |rows| && rows[i].Id() == id {
      var i :| 0 <= i < |tabs| && tabs[i].Id() == id;
      assert rows[i].Id() == id;
    }
  }

  ghost predicate ViewTabs(tabs: Tabs, m: Sessions) {
    && (forall i, j :: 0 <= i < j < |tabs| ==> tabs[i].Id() != tabs[j].Id())
    && (forall i :: 0 <= i < |tabs| ==> tabs[i].Id() in m && tabs[i] == TabOf(m[tabs[i].Id()]))
    && (forall id :: id in m ==> exists i :: 0 <= i < |tabs| && tabs[i].Id() == id)
  }

  lemma DistinctViewTabs(h: Hub)
    requires LockStep(h.sessions, h.order)
    ensures DistinctTabs(ViewOf(h))
  {
    forall i, j | 0 <= i < j < |h.order| ensures ViewOf(h)[i].Id() != ViewOf(h)[j].Id() {
      assert h.order[i] in h.order && h.order[j] in h.order;
    }
  }

  /** Ids stay distinct under permutation. */
  lemma DistinctByMultiset(a: Tabs, b: Tabs)
    requires DistinctTabs(a) && multiset(a) == multiset(b)
    ensures DistinctTabs(b)
  {
    forall i, j | 0 <= i < j < |b| ensures b[i].Id() != b[j].Id() {
      if b[i].Id() == b[j].Id() {
        assert b[i] in multiset(a) && b[j] in multiset(a);
        var k :| 0 <= k < |a| && a[k] == b[i];
        var l :| 0 <= l < |a| && a[l] == b[j];
        assert k == l;
        TwiceCounts(b, i, j);
        OnceCounts(a, k);
        assert false;
      }
    }
  }

  lemma TwiceCounts(s: Tabs, i: nat, j: nat)
    requires i < j < |s| && s[i] == s[j]
    ensures multiset(s)[s[i]] >= 2
  {
    assert s == s[..j] + [s[j]] + s[j + 1..];
    assert s[..j][i] == s[i];
  }

  lemma OnceCounts(s: Tabs, k: nat)
    requires DistinctTabs(s) && k < |s|
    ensures multiset(s)[s[k]] == 1
  {
    assert s == s[..k] + [s[k]] + s[k + 1..];
    assert s[k] !in s[..k] && s[k] !in s[k + 1..];
  }

  lemma {:induction false} OrderCounts(ids: set<Id>, order: seq<Id>)
    requires Distinct(order) && forall id :: id in ids <==> id in order
    ensures |ids| == |order|
    decreases |order|
  {
    if order == [] {
      assert ids == {};
    } else {
      var n := |order| - 1;
      var init, last := order[..n], order[n];
      assert order == init + [last] && last !in init;
      assert ids == (ids - {last}) + {last};
      OrderCounts(ids - {last}, init);
    }
  }

  lemma ViewSlots(h: Hub, i: nat)
    requires LockStep(h.sessions, h.order) && i < |h.order|
    ensures h.order[i] in h.sessions && ViewOf(h)[i].Id() == h.order[i]
    ensures ViewOf(h)[i] == TabOf(h.sessions[ViewOf(h)[i].Id()])
  {
    assert h.order[i] in h.order;
  }

  /** The view shows every session once, as it is, in the Hub's order. */
  lemma ViewIsViewTabs(h: Hub)
    requires LockStep(h.sessions, h.order)
    ensures ViewTabs(ViewOf(h), h.sessions)
    ensures |ViewOf(h)| == |h.sessions| == |h.order|
    ensures forall i :: 0 <= i < |h.order| ==> ViewOf(h)[i].Id() == h.order[i]
  {
    hide TabOf;
    var view := ViewOf(h);
    DistinctViewTabs(h);
    OrderCounts(h.sessions.Keys, h.order);
    forall i | 0 <= i < |view|
      ensures view[i].Id() == h.order[i] && view[i].Id() in h.sessions && view[i] == TabOf(h.sessions[view[i].Id()]) {
      ViewSlots(h, i);
    }
    forall id | id in h.sessions ensures exists i :: 0 <= i < |view| && view[i].Id() == id {
      var k :| 0 <= k < |h.order| && h.order[k] == id;
      assert view[k].Id() == id;
    }
  }

  lemma PermutedViewTabs(view: Tabs, tabs: Tabs, m: Sessions)
    requires ViewTabs(view, m) && multiset(tabs) == multiset(view)
    ensures ViewTabs(tabs, m)
  {
    hide TabOf;
    DistinctByMultiset(view, tabs);
    forall i | 0 <= i < |tabs| ensures tabs[i].Id() in m && tabs[i] == TabOf(m[tabs[i].Id()]) {
      assert tabs[i] in multiset(view);
      var k :| 0 <= k < |view| && view[k] == tabs[i];
    }
    forall id | id in m ensures exists i :: 0 <= i < |tabs| && tabs[i].Id() == id {
      var k :| 0 <= k < |view| && view[k].Id() == id;
      assert view[k] in multiset(tabs);
      var i :| 0 <= i < |tabs| && tabs[i] == view[k];
      assert tabs[i].Id() == id;
    }
  }

  lemma SortedViewTabs(h: Hub, tabs: Tabs)
    requires LockStep(h.sessions, h.order) && multiset(tabs) == multiset(ViewOf(h))
    ensures ViewTabs(tabs, h.sessions)
  {
    ViewIsViewTabs(h);
    PermutedViewTabs(ViewOf(h), tabs, h.sessions);
  }

  lemma SortedViewSolo(tabs: Tabs, m: Sessions)
    requires ViewTabs(tabs, m)
    ensures TabSoloed(tabs) == AnySoloed(m)
  {
    if AnySoloed(m) {
      var id :| id in m && m[id].soloed;
      var i :| 0 <= i < |tabs| && tabs[i].Id() == id;
      assert tabs[i].soloed;
    }
    if TabSoloed(tabs) {
      var i :| 0 <= i < |tabs| && tabs[i].soloed;
      assert m[tabs[i].Id()].soloed;
    }
  }

  // --------------------------------------------------- predicting the Hub

  /** The Hub's map with the action's flag edit applied, before any rearming. */
  function EditedBy(m: Sessions, action: Action): Sessions {
    match action
    case Acknowledge(id) => if id in m then m[id := m[id].(unread := false)] else m
    case Dismiss(id) => m - {id}
    case _ => Edited(m, OpOf(action))
  }

  /** Every local action has the shape "edit, then rearm against the old map". */
  lemma StepIsEditThenRearm(h: Hub, action: Action)
    requires Valid(h)
    ensures Step(h, OpOf(action)).hub.sessions == Reconciled(h.sessions, EditedBy(h.sessions, action))
  {
    hide Rolled, Updates, Without;
    var m := h.sessions;
    match action
    case Acknowledge(id) =>
      if id in m {
        SameSoloSameBit(m, id, m[id].(unread := false));
        assert Reconciled(m, EditedBy(m, action)) == EditedBy(m, action);
        assert m[id].unread || EditedBy(m, action) == m;
      } else {
        ReconciledSame(m);
      }
    case Dismiss(id) =>
      if id !in m {
        assert m - {id} == m;
        ReconciledSame(m);
      }
    case _ =>
  }

  /** Soloing an id the Hub does not hold is the one action the rail applies and the
      Hub ignores. */
  predicate SolosStranger(m: Sessions, action: Action) {
    action.SetSoloed? && action.on && action.sessionId !in m
  }

  lemma {:induction false} WithoutRowElements(rows: Rows, id: Id)
    ensures forall t :: t in WithoutRow(rows, id) <==> t in rows && t.Id() != id
  {
    if rows != [] {
      var n := |rows| - 1;
      WithoutRowElements(rows[..n], id);
      assert rows == rows[..n] + [rows[n]];
    }
  }

  lemma DistinctSnoc(rows: Rows, t: RenderedTab)
    requires DistinctRows(rows) && forall r :: r in rows ==> r.Id() != t.Id()
    ensures DistinctRows(rows + [t])
  {
    assert forall i :: 0 <= i < |rows| ==> rows[i] in rows;
  }

  lemma {:induction false} WithoutRowMeaning(rows: Rows, id: Id)
    ensures forall t :: t in WithoutRow(rows, id) <==> t in rows && t.Id() != id
    ensures DistinctRows(rows) ==> DistinctRows(WithoutRow(rows, id))
  {
    WithoutRowElements(rows, id);
    if rows != [] && DistinctRows(rows) {
      var n := |rows| - 1;
      var init := rows[..n];
      assert forall i :: 0 <= i < n ==> init[i] == rows[i];
      WithoutRowElements(init, id);
      WithoutRowMeaning(init, id);
      if rows[n].Id() != id { DistinctSnoc(WithoutRow(init, id), rows[n]); }
    }
  }

  lemma DismissMirrors(rows: Rows, m: Sessions, id: Id)
    requires Mirrors(rows, m)
    ensures Mirrors(WithoutRow(rows, id), m - {id})
  {
    WithoutRowMeaning(rows, id);
    var kept := WithoutRow(rows, id);
    forall i | 0 <= i < |kept| ensures kept[i].Id() in m - {id} && Matches(kept[i], m[kept[i].Id()]) {
      assert kept[i] in kept;
    }
    forall k | k in m - {id} ensures exists i :: 0 <= i < |kept| && kept[i].Id() == k {
      var i :| 0 <= i < |rows| && rows[i].Id() == k;
      assert rows[i] in kept;
    }
  }

  lemma EditedByKeys(m: Sessions, action: Action)
    requires !action.Dismiss?
    ensures EditedBy(m, action).Keys == m.Keys
  {
  }

  /** The row carries the session's flags. */
  predicate FlagsShown(t: RenderedTab, s: Session) {
    t.muted == s.muted && t.soloed == s.soloed && t.unread == s.unread
  }

  function WithFlagsOf(s: Session, t: RenderedTab): Session {
    s.(muted := t.muted, soloed := t.soloed, unread := t.unread)
  }

  lemma EditedByFlags(t: RenderedTab, m: Sessions, action: Action)
    requires t.Id() in m && !action.Dismiss? && !SolosStranger(m, action) && FlagsShown(t, m[t.Id()])
    ensures t.Id() in EditedBy(m, action)
    ensures var e := EditTab(t, action);
      e.facts == t.facts && e.attention == t.attention && EditedBy(m, action)[t.Id()] == WithFlagsOf(m[t.Id()], e)
  {
    hide EditedBy, OpOf;
    match action
    case SetMuted(id, on) => MuteEdit(m, id, on, t.Id());
    case SetSoloed(id, on) => SoloEdit(m, id, on, t.Id());
    case Acknowledge(id) => AcknowledgeEdit(m, id, t.Id());
  }

  lemma MuteEdit(m: Sessions, id: Id, on: bool, k: Id)
    requires k in m
    ensures var e := EditedBy(m, SetMuted(id, on));
      k in e && e[k] == if k == id then m[k].(muted := on, soloed := false) else m[k]
  {
  }

  lemma SoloEdit(m: Sessions, id: Id, on: bool, k: Id)
    requires k in m && (on ==> id in m)
    ensures var e := EditedBy(m, SetSoloed(id, on));
      && k in e
      && e[k] == if k == id then m[k].(soloed := on, muted := false) else if on then m[k].(soloed := false) else m[k]
  {
  }

  lemma AcknowledgeEdit(m: Sessions, id: Id, k: Id)
    requires k in m
    ensures var e := EditedBy(m, Acknowledge(id)); k in e && e[k] == if k == id then m[k].(unread := false) else m[k]
  {
  }

  lemma EditMatches(t: RenderedTab, m: Sessions, action: Action)
    requires t.Id() in m && Matches(t, m[t.Id()]) && !action.Dismiss? && !SolosStranger(m, action)
    requires t.Id() in EditedBy(m, action)
    ensures EditTab(t, action).Id() == t.Id() && Matches(EditTab(t, action), EditedBy(m, action)[t.Id()])
  {
    var e := EditTab(t, action);
    EditedByFlags(t, m, action);
  }

  lemma EditMirrors(rows: Rows, m: Sessions, action: Action)
    requires Mirrors(rows, m) && !SolosStranger(m, action)
    ensures Mirrors(EditTabs(rows, action), EditedBy(m, action))
  {
    if action.Dismiss? {
      DismissMirrors(rows, m, action.sessionId);
    } else {
      EditedByKeys(m, action);
      forall i | 0 <= i < |rows| {
        EditMatches(rows[i], m, action);
      }
      MirrorsRowByRow(rows, m, EditTabs(rows, action), EditedBy(m, action));
    }
  }

  lemma DeriveMatches(t: RenderedTab, m: Sessions, e: Sessions, notify: map<Id, bool>)
    requires t.Id() in e && Matches(t, e[t.Id()])
    requires (t.Id() in notify && notify[t.Id()]) == Notifies(m, t.Id())
    ensures var t' := DeriveTab(t, AnySoloed(e), notify);
      && t'.Id() == t.Id()
      && Matches(t', Reconciled(m, e)[t.Id()])
      && PingsByHub(t', Reconciled(m, e))
  {
    SameFlagsSameBit(e, Reconciled(m, e));
  }

  lemma DeriveMirrors(rows: Rows, m: Sessions, e: Sessions, notify: map<Id, bool>)
    requires Mirrors(rows, e)
    requires forall id :: id in e ==> (id in notify && notify[id]) == Notifies(m, id)
    ensures Mirrors(DeriveTabs(rows, notify), Reconciled(m, e))
    ensures forall i :: 0 <= i < |rows| ==> PingsByHub(DeriveTabs(rows, notify)[i], Reconciled(m, e))
  {
    MirroredSolo(rows, e);
    forall i | 0 <= i < |rows| {
      DeriveMatches(rows[i], m, e, notify);
    }
    MirrorsRowByRow(rows, e, DeriveTabs(rows, notify), Reconciled(m, e));
  }

  lemma OldNotifyIsHubs(rows: Rows, m: Sessions, id: Id)
    requires Mirrors(rows, m)
    ensures var notify := NotifyMapFor(rows, RowsSoloed(rows)); (id in notify && notify[id]) == Notifies(m, id)
  {
    MirroredSolo(rows, m);
    NotifyMapEntries(rows, RowsSoloed(rows));
    if id in m {
      var i :| 0 <= i < |rows| && rows[i].Id() == id;
    }
  }

  /** Whatever the Hub's state, the optimistic rows carry the Hub's next flags and
      badges exactly, and ping by the Hub's rule. */
  lemma LocalFollowsHub(inbox: Inbox, h: Hub, action: Action)
    requires Valid(h) && Mirrors(inbox.tabs, h.sessions) && !SolosStranger(h.sessions, action)
    ensures var rows := ApplyLocal(inbox, action).tabs;
      var m' := Step(h, OpOf(action)).hub.sessions;
      Mirrors(rows, m') && forall i :: 0 <= i < |rows| ==> PingsByHub(rows[i], m')
  {
    var m := h.sessions;
    forall id ensures var notify := NotifyMapFor(inbox.tabs, RowsSoloed(inbox.tabs));
                      (id in notify && notify[id]) == Notifies(m, id) {
      OldNotifyIsHubs(inbox.tabs, m, id);
    }
    EditMirrors(inbox.tabs, m, action);
    DeriveMirrors(EditTabs(inbox.tabs, action), m, EditedBy(m, action),
        NotifyMapFor(inbox.tabs, RowsSoloed(inbox.tabs)));
    StepIsEditThenRearm(h, action);
  }

  ghost predicate NoConflict(m: Sessions) {
    forall id :: !Conflicted(m, id)
  }

  /** The action takes a flag off the session, if it carried both. */
  predicate Clears(m: Sessions, action: Action, id: Id) {
    match action
    case SetMuted(k, _) => k == id
    case SetSoloed(k, on) => if on then k in m else k == id
    case Acknowledge(_) => false
    case Dismiss(k) => k == id
  }

  /** Whether the Hub will hold a session both muted and soloed can be told before the
      action: it holds one already and the action does not touch it. */
  lemma ConflictsRemain(h: Hub, action: Action, id: Id)
    requires Valid(h)
    ensures Conflicted(Step(h, OpOf(action)).hub.sessions, id) <==>
      Conflicted(h.sessions, id) && !Clears(h.sessions, action, id)
  {
    hide Step, Valid, EditedBy, Reconciled, Conflicted, Clears;
    StepIsEditThenRearm(h, action);
    RearmingKeepsConflicts(h.sessions, EditedBy(h.sessions, action), id);
    EditsClear(h.sessions, action, id);
  }

  lemma RearmingKeepsConflicts(before: Sessions, edited: Sessions, id: Id)
    ensures Conflicted(Reconciled(before, edited), id) <==> Conflicted(edited, id)
  {
    hide Notifies;
  }

  lemma EditsClear(m: Sessions, action: Action, id: Id)
    ensures Conflicted(EditedBy(m, action), id) <==> Conflicted(m, id) && !Clears(m, action, id)
  {
  }

  ghost predicate ConflictsCleared(m: Sessions, action: Action) {
    forall id :: Conflicted(m, id) ==> Clears(m, action, id)
  }

  /** The optimistic UI predicts the Hub exactly, on every state, if and only if the
      action takes a flag off every waiting session that is both muted and soloed, and
      does not solo an id the Hub does not hold while some session is soloed. */
  lemma LocalPredictsHub(inbox: Inbox, h: Hub, action: Action)
    requires Valid(h) && Shows(inbox, h)
    ensures Shows(ApplyLocal(inbox, action), Step(h, OpOf(action)).hub) <==>
      && !(SolosStranger(h.sessions, action) && AnySoloed(h.sessions))
      && ConflictsCleared(h.sessions, action)
  {
    hide Valid, Shows, Step, Conflicted, Clears, AnySoloed, Mirrors;
    if SolosStranger(h.sessions, action) && AnySoloed(h.sessions) {
      StrangerSoloMispredicts(inbox, h, action);
    } else {
      if SolosStranger(h.sessions, action) {
        StrangerSoloHarmless(inbox, h, action);
      } else {
        ShowsMirrors(inbox, h);
        LocalFollowsHub(inbox, h, action);
      }
      HubPingsShow(ApplyLocal(inbox, action), Step(h, OpOf(action)).hub);
      forall id { ConflictsRemain(h, action, id); }
    }
  }

  lemma ShowsMirrors(inbox: Inbox, h: Hub)
    requires Shows(inbox, h)
    ensures Mirrors(inbox.tabs, h.sessions)
  {
  }

  lemma HubPingsShow(inbox: Inbox, h: Hub)
    requires Mirrors(inbox.tabs, h.sessions)
    requires forall i :: 0 <= i < |inbox.tabs| ==> PingsByHub(inbox.tabs[i], h.sessions)
    requires inbox.waitingCount == CountPinging(inbox.tabs) && inbox.waitingTotal == CountWaiting(inbox.tabs)
    ensures Shows(inbox, h) <==> NoConflict(h.sessions)
  {
    MirroredCounts(inbox.tabs, h.sessions);
    forall id ensures Notifies(h.sessions, id) != HostNotifies(h.sessions, id) <==> Conflicted(h.sessions, id) {
      NotifyRulesDiffer(h.sessions, id);
    }
    if !NoConflict(h.sessions) {
      var id :| Conflicted(h.sessions, id);
      var i :| 0 <= i < |inbox.tabs| && inbox.tabs[i].Id() == id;
      assert !PingsByHost(inbox.tabs[i], h.sessions);
    }
  }

  lemma StrangerStep(h: Hub, action: Action)
    requires SolosStranger(h.sessions, action)
    ensures Step(h, OpOf(action)).hub == h
  {
    FlagStepSettled(h, OpOf(action));
  }

  /** The rail clears the flag on every row but the named one, which may not exist. */
  lemma SoloClearsOthers(inbox: Inbox, action: Action, i: nat)
    requires action.SetSoloed? && action.on && i < |inbox.tabs| && inbox.tabs[i].Id() != action.sessionId
    ensures var rows := ApplyLocal(inbox, action).tabs;
      |rows| == |inbox.tabs| && rows[i].Id() == inbox.tabs[i].Id() && !rows[i].soloed
  {
    hide NotifyMapFor, CountWhere, ReconcileUnread;
    assert EditTabs(inbox.tabs, action)[i] == EditTab(inbox.tabs[i], action);
  }

  lemma StrangerSoloMispredicts(inbox: Inbox, h: Hub, action: Action)
    requires Valid(h) && Shows(inbox, h) && SolosStranger(h.sessions, action) && AnySoloed(h.sessions)
    ensures !Shows(ApplyLocal(inbox, action), Step(h, OpOf(action)).hub)
  {
    hide Step, Rolled, ApplyLocal, PingsByHost;
    StrangerStep(h, action);
    var id :| id in h.sessions && h.sessions[id].soloed;
    var i :| 0 <= i < |inbox.tabs| && inbox.tabs[i].Id() == id;
    SoloClearsOthers(inbox, action, i);
    assert Matches(inbox.tabs[i], h.sessions[id]);
  }

  /** The rows may lag behind the Hub. Soloing a row whose session is already gone there
      shows every other solo as cleared, while the Hub keeps it, until the next push. */
  lemma LaggingSoloMispredicts(inbox: Inbox, h: Hub, action: Action, i: nat)
    requires action.SetSoloed? && action.on && action.sessionId !in h.sessions
    requires i < |inbox.tabs| && inbox.tabs[i].Id() in h.sessions && h.sessions[inbox.tabs[i].Id()].soloed
    ensures var rows := ApplyLocal(inbox, action).tabs; var m' := Step(h, OpOf(action)).hub.sessions;
      && |rows| == |inbox.tabs| && rows[i].Id() == inbox.tabs[i].Id() && rows[i].Id() in m'
      && !rows[i].soloed && m'[rows[i].Id()].soloed
  {
    hide Step, ApplyLocal;
    StrangerStep(h, action);
    SoloClearsOthers(inbox, action, i);
  }

  lemma UnsoloedEditsAgree(rows: Rows, action: Action, quiet: Action)
    requires !RowsSoloed(rows) && action.SetSoloed? && action.on && quiet == SetMuted(action.sessionId, true)
    requires forall i :: 0 <= i < |rows| ==> rows[i].Id() != action.sessionId
    ensures EditTabs(rows, action) == EditTabs(rows, quiet)
  {
    forall i | 0 <= i < |rows| ensures EditTab(rows[i], action) == EditTab(rows[i], quiet) {
      assert !rows[i].soloed;
    }
  }

  lemma StrangerSoloHarmless(inbox: Inbox, h: Hub, action: Action)
    requires Valid(h) && Shows(inbox, h) && SolosStranger(h.sessions, action) && !AnySoloed(h.sessions)
    ensures var rows := ApplyLocal(inbox, action).tabs;
      var m' := Step(h, OpOf(action)).hub.sessions;
      Mirrors(rows, m') && forall i :: 0 <= i < |rows| ==> PingsByHub(rows[i], m')
  {
    StrangerStep(h, action);
    var quiet := SetMuted(action.sessionId, true);
    FlagStepSettled(h, OpOf(quiet));
    LocalFollowsHub(inbox, h, quiet);
    MirroredSolo(inbox.tabs, h.sessions);
    UnsoloedEditsAgree(inbox.tabs, action, quiet);
  }

  lemma PolicyHasNoConflict(h: Hub)
    requires Policy(h)
    ensures NoConflict(h.sessions)
  {
  }

  /** On every state a disciplined run reaches, the rail predicts the Hub exactly. */
  lemma RailPredictsHub(ops: seq<Op>, inbox: Inbox, action: Action)
    requires Disciplined(ops) && Shows(inbox, After(ops)) && !SolosStranger(After(ops).sessions, action)
    ensures Shows(ApplyLocal(inbox, action), After(ops + [OpOf(action)]))
  {
    hide Valid, Shows, ApplyLocal, Step, OneSolo, SoloedUnmuted, UnreadNotifies, Disciplined, Conflicted, SolosStranger;
    var h := After(ops);
    RunKeepsPolicy(ops);
    PolicyHasNoConflict(h);
    assert (ops + [OpOf(action)])[..|ops|] == ops;
    LocalPredictsHub(inbox, h, action);
  }
}
