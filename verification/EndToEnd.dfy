/** The whole loop: a click in the rail, the Hub's operation, its broadcasts, the host's
    reducer and rendering, and the desktop notifications on the way. */
module EndToEnd {
  import opened Protocol
  import opened MergeSpec
  import opened Attention
  import opened Faces
  import opened Firing
  import opened View
  import opened Optimistic
  import opened Rail
  import Notify

  /** The same rows in some order, each once, and the same counts. */
  ghost predicate SameInbox(a: Inbox, b: Inbox) {
    && DistinctRows(a.tabs) && DistinctRows(b.tabs)
    && (forall t :: t in a.tabs <==> t in b.tabs)
    && a.waitingCount == b.waitingCount && a.waitingTotal == b.waitingTotal
  }

  lemma RowShown(a: Inbox, b: Inbox, h: Hub, t: RenderedTab)
    requires Shows(a, h) && Shows(b, h) && t in a.tabs
    ensures t in b.tabs
  {
    var i :| 0 <= i < |a.tabs| && a.tabs[i] == t;
    var j :| 0 <= j < |b.tabs| && b.tabs[j].Id() == a.tabs[i].Id();
    assert Matches(a.tabs[i], h.sessions[t.Id()]) && Matches(b.tabs[j], h.sessions[t.Id()]);
    assert PingsByHost(a.tabs[i], h.sessions) && PingsByHost(b.tabs[j], h.sessions);
    assert a.tabs[i] == b.tabs[j];
  }

  /** Two inboxes showing one Hub are the same up to row order. */
  lemma ShowingIsUnique(a: Inbox, b: Inbox, h: Hub)
    requires Shows(a, h) && Shows(b, h)
    ensures SameInbox(a, b)
  {
    forall t ensures t in a.tabs <==> t in b.tabs {
      if t in a.tabs { RowShown(a, b, h, t); }
      if t in b.tabs { RowShown(b, a, h, t); }
    }
  }

  lemma RunIsValid(ops: seq<Op>)
    ensures Valid(After(ops))
  {
    RunKeepsValid(EmptyHub, ops);
  }

  /** The rail is right before the Hub answers. On every disciplined history, and
      whenever the host face joined: if the last pushed inbox showed the Hub, and since
      then no action failed too late to be rolled back and no server was closed, the
      visible inbox equals, up to row order, what the host pushes once the Hub has applied
      and broadcast, and the host has folded, everything the Hub was told since. */
  lemma OptimisticMatchesPushed(joined: seq<Op>, later: seq<Op>, g: Hub, steps: seq<RailStep>,
                                connected: bool, now: Option<int>)
    requires Disciplined(joined + later) && Shows(LastPush(steps), After(joined + later)) && Undisturbed(steps)
    ensures Valid(After(joined))
    ensures var model := GuiApplyAll(g, Stream(joined, later + OpsOf(ActionsOf(Sent(steps)))));
      && LockStep(model.sessions, model.order)
      && SameInbox(Ran(steps).inbox, RenderAt(ViewOf(model), connected, now))
  {
    hide *;
    var more := later + OpsOf(ActionsOf(Sent(steps)));
    FacesReplicate(joined, more, g, map[]);
    assert joined + more == joined + later + OpsOf(ActionsOf(Sent(steps)));
    RailRunsAhead(steps, joined + later);
    RunIsValid(joined + more);
    var model := GuiApplyAll(g, Stream(joined, more));
    RenderShows(model, connected, now);
    ShowingIsUnique(Ran(steps).inbox, RenderAt(ViewOf(model), connected, now), model);
  }

  lemma LinkModelAdvances(events: seq<Event>)
    requires events != []
    ensures var n := |events| - 1;
      Notify.Linked(events).model == GuiApply(Notify.Linked(events[..n]).model, events[n])
  {
    hide GuiApply, LockStep, Notify.Fold, Notify.ViewOutcomes, ViewOf;
  }

  lemma GuiApplyAllSnoc(g: Hub, events: seq<Event>, e: Event)
    ensures GuiApplyAll(g, events + [e]) == GuiApply(GuiApplyAll(g, events), e)
  {
    GuiApplyAllConcat(g, events, [e]);
    GuiApplyOne(GuiApplyAll(g, events), e);
  }

  lemma LinkModelStarts()
    ensures Notify.Linked([]).model == GuiApplyAll(EmptyHub, [])
  {
  }

  lemma {:induction false} LinkModelIsFold(events: seq<Event>)
    ensures Notify.Linked(events).model == GuiApplyAll(EmptyHub, events)
  {
    hide *;
    if events == [] {
      LinkModelStarts();
    } else {
      var n := |events| - 1;
      LinkModelIsFold(events[..n]);
      LinkModelAdvances(events);
      GuiApplyAllSnoc(EmptyHub, events[..n], events[n]);
      assert events == events[..n] + [events[n]];
    }
  }

  /** The model survives reconnects, so `earlier` is whatever past connections sent;
      the last one opens with the snapshot of the moment it subscribed. */
  lemma LinkReachesHub(earlier: seq<Event>, joined: seq<Op>, later: seq<Op>)
    ensures Valid(After(joined)) && Valid(After(joined + later))
    ensures Notify.Linked(earlier + Stream(joined, later)).model == After(joined + later)
  {
    hide *;
    var before := GuiApplyAll(EmptyHub, earlier);
    RunIsValid(joined);
    RunIsValid(joined + later);
    FacesReplicate(joined, later, before, map[]);
    LinkModelIsFold(earlier + Stream(joined, later));
    GuiApplyAllConcat(EmptyHub, earlier, Stream(joined, later));
  }

  lemma StreamOpensWithSnapshot(earlier: seq<Event>, joined: seq<Op>, later: seq<Op>)
    requires Valid(After(joined)) && (earlier != [] ==> earlier[0].Snapshot?)
    ensures var events := earlier + Stream(joined, later); events != [] && events[0].Snapshot?
  {
    hide After, Valid, Broadcasts;
  }

  /** Once the events of an operation are in, what the outcome stream leaves outstanding is
      something the Hub wants noticed, however often the host reconnected on the way. */
  lemma OutcomesMatchHub(earlier: seq<Event>, joined: seq<Op>, later: seq<Op>, id: Id)
    requires Disciplined(joined + later) && (earlier != [] ==> earlier[0].Snapshot?)
    ensures Valid(After(joined))
    ensures id in Notify.Linked(earlier + Stream(joined, later)).outstanding ==>
        Notifies(After(joined + later).sessions, id)
  {
    hide *;
    RunIsValid(joined);
    var events := earlier + Stream(joined, later);
    StreamOpensWithSnapshot(earlier, joined, later);
    Notify.LinkPendingIsNotifying(events);
    Notify.NotifyingMeaning(ViewOf(Notify.Linked(events).model), id);
    ViewMatchesHub(earlier, joined, later, id);
  }

  /** The host's view and the Hub agree on who notifies. */
  lemma ViewMatchesHub(earlier: seq<Event>, joined: seq<Op>, later: seq<Op>, id: Id)
    requires Disciplined(joined + later)
    ensures Valid(After(joined))
    ensures var model := Notify.Linked(earlier + Stream(joined, later)).model;
      Notify.PendingIn(ViewOf(model), id) <==> Notifies(After(joined + later).sessions, id)
  {
    hide *;
    LinkReachesHub(earlier, joined, later);
    var model := Notify.Linked(earlier + Stream(joined, later)).model;
    Notify.ViewPendingIsHostNotifies(model, id);
    NotifyRulesAgree(joined + later, id);
  }

  // ------------------------------------------------- what is on the screen

  lemma UrgencyShown(g: Hub, id: Id)
    requires LockStep(g.sessions, g.order) && id in g.sessions
    ensures var t := Notify.FindTab(ViewOf(g), id);
      t.Some? && t.value.facts.urgency == g.sessions[id].rollupUrgency
  {
    hide AnySoloed;
    var k :| 0 <= k < |g.order| && g.order[k] == id;
    Notify.FindTabMeaning(ViewOf(g), id);
    assert ViewOf(g)[k].Id() == id;
    DistinctViewTabs(g);
    Notify.FindTabUnique(ViewOf(g), k);
  }

  /** In the Hub's terms: an event shows the session if it makes it ping afresh. */
  lemma ReceiveFires(link: Notify.Link, e: Event, id: Id)
    requires LockStep(link.model.sessions, link.model.order) && link.seenSnapshot
    ensures id in Notify.Receive(link, e).shown <==>
      id in link.shown || Fires(link.model.sessions, GuiApply(link.model, e).sessions, id)
    ensures Notify.Receive(link, e).model == GuiApply(link.model, e) && Notify.Receive(link, e).seenSnapshot
  {
    var g, g' := link.model, GuiApply(link.model, e);
    GuiApplyLockStep(g, e);
    hide GuiApply, ViewOf, LockStep, Notify.Receive, Notify.PendingIn, HostNotifies;
    Notify.ReceiveShows(link, e, id);
    Notify.ViewPendingIsHostNotifies(g, id);
    Notify.ViewPendingIsHostNotifies(g', id);
    NotifyingIsHeld(g.sessions, id);
    NotifyingIsHeld(g'.sessions, id);
    if id in g.sessions { UrgencyShown(g, id); }
    if id in g'.sessions { UrgencyShown(g', id); }
  }

  lemma LinkedSnoc(events: seq<Event>, e: Event)
    ensures Notify.Linked(events + [e]) == Notify.Receive(Notify.Linked(events), e)
  {
    hide Notify.Receive;
    assert (events + [e])[..|events|] == events;
  }

  lemma {:induction false} ShownAlong(past: seq<Event>, events: seq<Event>, id: Id)
    requires Notify.Linked(past).seenSnapshot
    ensures id in Notify.Linked(past + events).shown <==>
      id in Notify.Linked(past).shown || FiresOn(Notify.Linked(past).model, events, id)
    ensures Notify.Linked(past + events).seenSnapshot
    decreases |events|
  {
    hide Notify.Linked, Notify.Receive, GuiApply, Fires;
    if events == [] {
      assert past + events == past;
    } else {
      LinkedSnoc(past, events[0]);
      ReceiveFires(Notify.Linked(past), events[0], id);
      ShownAlong(past + [events[0]], events[1..], id);
      assert past + [events[0]] + events[1..] == past + events;
    }
  }

  /** The reasons a notification can be on the screen: it was there before the last
      connection; or the snapshot of that connection made the session ping afresh; or an
      operation fired it since. */
  ghost predicate ShownFor(earlier: seq<Event>, joined: seq<Op>, later: seq<Op>, id: Id) {
    || id in Notify.Linked(earlier).shown
    || (earlier != [] && Fires(Notify.Linked(earlier).model.sessions, After(joined).sessions, id))
    || exists k :: FiredBy(After(joined), later, k, id)
  }

  lemma OrderlyAt(joined: seq<Op>, later: seq<Op>, k: nat)
    requires Disciplined(joined + later) && k < |later|
    ensures Policy(AfterFrom(After(joined), later[..k]))
    ensures FlagsPreserved(AfterFrom(After(joined), later[..k]).sessions, later[k])
  {
    var all, n := joined + later, |joined| + k;
    assert all[..n] == joined + later[..k] && all[n] == later[k];
    assert FlagsPreserved(After(all[..n]).sessions, all[n]);
    hide Policy, FlagsPreserved, AfterFrom;
    AfterFromSplits(EmptyHub, joined, later[..k]);
    DisciplinedPrefix(all, n);
    RunKeepsPolicy(joined + later[..k]);
  }

  lemma OrderlyFrom(joined: seq<Op>, later: seq<Op>)
    requires Disciplined(joined + later)
    ensures Orderly(After(joined), later)
  {
    hide Policy, FlagsPreserved, AfterFrom, After, Disciplined;
    forall k | 0 <= k < |later|
      ensures Policy(AfterFrom(After(joined), later[..k]))
      ensures FlagsPreserved(AfterFrom(After(joined), later[..k]).sessions, later[k]) {
      OrderlyAt(joined, later, k);
    }
  }

  lemma SnapshotArrives(earlier: seq<Event>, joined: seq<Op>, id: Id)
    requires Valid(After(joined)) && (earlier != [] ==> earlier[0].Snapshot?)
    ensures var past := earlier + [Snapshot(SnapshotOf(After(joined)))];
      && Notify.Linked(past).seenSnapshot && Notify.Linked(past).model == After(joined)
      && (id in Notify.Linked(past).shown <==>
            id in Notify.Linked(earlier).shown
            || (earlier != [] && Fires(Notify.Linked(earlier).model.sessions, After(joined).sessions, id)))
  {
    var e := Snapshot(SnapshotOf(After(joined)));
    SnapshotSynchronizes(After(joined), Notify.Linked(earlier).model, map[]);
    LinkedSnoc(earlier, e);
    hide Fires, GuiApply, After, Notify.Linked, Valid;
    if earlier == [] {
      assert earlier + [e] == [e];
    } else {
      Notify.LinkFoldsViews(earlier);
      ReceiveFires(Notify.Linked(earlier), e, id);
    }
  }

  /** Exactly what is on the screen, in the Hub's terms, over any number of connections. */
  lemma ShownExactly(earlier: seq<Event>, joined: seq<Op>, later: seq<Op>, id: Id)
    requires Disciplined(joined + later) && (earlier != [] ==> earlier[0].Snapshot?)
    ensures Valid(After(joined))
    ensures id in Notify.Linked(earlier + Stream(joined, later)).shown <==> ShownFor(earlier, joined, later, id)
  {
    RunIsValid(joined);
    StreamParts(earlier, joined, later);
    hide *;
    var past := earlier + [Snapshot(SnapshotOf(After(joined)))];
    SnapshotArrives(earlier, joined, id);
    ShownAlong(past, Broadcasts(After(joined), later), id);
    OrderlyFrom(joined, later);
    RunFiresExactly(After(joined), later, id);
  }

  lemma StreamParts(earlier: seq<Event>, joined: seq<Op>, later: seq<Op>)
    requires Valid(After(joined))
    ensures earlier + Stream(joined, later) ==
      earlier + [Snapshot(SnapshotOf(After(joined)))] + Broadcasts(After(joined), later)
  {
    hide After, Valid, Broadcasts;
  }

  /** Delivery dismisses nothing. So everything on the screen is wanted by the Hub if and
      only if every session that had a reason to be shown still notifies. */
  lemma ShownMatchesHubIff(earlier: seq<Event>, joined: seq<Op>, later: seq<Op>)
    requires Disciplined(joined + later) && (earlier != [] ==> earlier[0].Snapshot?)
    ensures Valid(After(joined))
    ensures var events := earlier + Stream(joined, later); var m := After(joined + later).sessions;
      (forall id :: id in Notify.Linked(events).shown ==> Notifies(m, id)) <==>
      (forall id :: ShownFor(earlier, joined, later, id) ==> Notifies(m, id))
  {
    hide *;
    RunIsValid(joined);
    forall id { ShownExactly(earlier, joined, later, id); }
  }

  lemma {:induction false} ShownOnlyGrows(events: seq<Event>, n: nat)
    requires n <= |events|
    ensures Notify.Linked(events[..n]).shown <= Notify.Linked(events).shown
  {
    if n == |events| {
      assert events[..n] == events;
    } else {
      var init := events[..|events| - 1];
      assert init[..n] == events[..n];
      ShownOnlyGrows(init, n);
      var link, e := Notify.Linked(init), events[|events| - 1];
      hide GuiApply, Notify.Fold, Notify.Delivered, Notify.ViewOutcomes, ViewOf;
      forall id | id in link.shown ensures id in Notify.Receive(link, e).shown {
        Notify.DeliveredMeaning(link.shown, Notify.OutcomesOf(link, e), id);
      }
    }
  }

  lemma DisciplinedSplit(ops: seq<Op>, more: seq<Op>)
    requires Disciplined(ops + more)
    ensures Disciplined(ops)
  {
    DisciplinedPrefix(ops + more, |ops|);
    assert (ops + more)[..|ops|] == ops;
  }

  lemma StreamSplits(joined: seq<Op>, later: seq<Op>, k: nat)
    requires Valid(After(joined)) && k <= |later|
    ensures Stream(joined, later[..k]) <= Stream(joined, later)
    ensures |Stream(joined, [])| == 1
  {
    hide After, Valid;
    BroadcastsPrefix(After(joined), later, k);
  }

  lemma ViewAt(events: seq<Event>, k: nat)
    requires k < |events|
    ensures k < |Notify.ViewsAlong(events)|
    ensures Notify.ViewsAlong(events)[k] == ViewOf(Notify.Linked(events[..k + 1]).model)
  {
    hide Notify.Linked, ViewOf;
    if k + 1 == |events| {
      assert events[..k + 1] == events;
    } else {
      var init := events[..|events| - 1];
      ViewAt(init, k);
      assert init[..k + 1] == events[..k + 1];
    }
  }

  /** A session that was silent when the face joined and notifies now has been shown. */
  lemma RaisedIsShown(earlier: seq<Event>, joined: seq<Op>, later: seq<Op>, id: Id)
    requires Disciplined(joined + later) && (earlier != [] ==> earlier[0].Snapshot?)
    requires !Notifies(After(joined).sessions, id) && Notifies(After(joined + later).sessions, id)
    ensures Valid(After(joined))
    ensures id in Notify.Linked(earlier + Stream(joined, later)).shown
  {
    hide *;
    RunIsValid(joined);
    var events, m := earlier + Stream(joined, later), |earlier|;
    StreamOpensWithSnapshot(earlier, joined, later);
    StreamSplits(joined, later, 0);
    assert later[..0] == [];
    assert events[..m + 1] == earlier + Stream(joined, []);
    assert joined + [] == joined;
    DisciplinedSplit(joined, later);
    ViewMatchesHub(earlier, joined, [], id);
    ViewAt(events, m);
    ViewMatchesHub(earlier, joined, later, id);
    SilentIsNotQuiet(Notify.ViewsAlong(events), m, id);
    Notify.LinkPendingIsExact(events, id);
    Notify.StuckExactly(events, id);
  }

  lemma SilentIsNotQuiet(views: seq<Tabs>, k: nat, id: Id)
    requires k < |views| && !Notify.PendingIn(views[k], id)
    ensures !Notify.InheritedQuietly(views, id)
  {
    hide Notify.PendingIn, Notify.UrgencyKept;
  }

  /** A notification outlives its reason: on every run, a session that notified at some
      point after the face joined, and no longer does, is still on the screen. */
  lemma AnsweredStaysShown(earlier: seq<Event>, joined: seq<Op>, later: seq<Op>, k: nat, id: Id)
    requires Disciplined(joined + later) && (earlier != [] ==> earlier[0].Snapshot?)
    requires k <= |later|
    requires !Notifies(After(joined).sessions, id) && Notifies(After(joined + later[..k]).sessions, id)
    requires !Notifies(After(joined + later).sessions, id)
    ensures Valid(After(joined))
    ensures var link := Notify.Linked(earlier + Stream(joined, later));
      id in link.shown && id !in link.outstanding
  {
    hide *;
    RunIsValid(joined);
    assert joined + later == joined + later[..k] + later[k..];
    DisciplinedSplit(joined + later[..k], later[k..]);
    RaisedIsShown(earlier, joined, later[..k], id);
    StreamSplits(joined, later, k);
    var part, events := earlier + Stream(joined, later[..k]), earlier + Stream(joined, later);
    assert events[..|part|] == part;
    ShownOnlyGrows(events, |part|);
    OutcomesMatchHub(earlier, joined, later, id);
  }

  /** Three operations do it: a session is reported, its run starts to wait, and it is
      muted. */
  lemma StuckNotificationIsReachable(s: Session, run: AgentRun)
    requires s.runs == [] && !s.muted && !s.soloed && !s.unread && run.state == Waiting
    ensures var joined, later := [UpsertSession(s)], [UpsertRun(s.sessionId, run), Mute(s.sessionId)];
      && Valid(After(joined))
      && !Notifies(After(joined + later).sessions, s.sessionId)
      && s.sessionId in Notify.Linked(Stream(joined, later)).shown
  {
    var id := s.sessionId;
    var joined, later := [UpsertSession(s)], [UpsertRun(id, run), Mute(id)];
    ThreeSteps(s, run);
    RunIsValid(joined);
    assert later[..1] == [UpsertRun(id, run)];
    assert [] + Stream(joined, later) == Stream(joined, later);
    hide *;
    AnsweredStaysShown([], joined, later, 1, id);
  }

  /** One unsoloed session, and nothing else. */
  predicate Alone(m: Sessions, id: Id, state: State, muted: bool) {
    m.Keys == {id} && m[id].sessionId == id && m[id].rollupState == state && m[id].muted == muted && !m[id].soloed
  }

  lemma AloneNotifies(m: Sessions, id: Id, state: State, muted: bool)
    requires Alone(m, id, state, muted)
    ensures Notifies(m, id) <==> state == Waiting && !muted
  {
    assert !AnySoloed(m);
  }

  lemma ReportedAlone(s: Session)
    requires s.runs == [] && !s.muted && !s.soloed
    ensures var m := Step(EmptyHub, UpsertSession(s)).hub.sessions;
      Alone(m, s.sessionId, Idle, false) && m[s.sessionId].runs == []
  {
  }

  lemma RunStartsToWait(h: Hub, id: Id, run: AgentRun)
    requires Alone(h.sessions, id, Idle, false) && h.sessions[id].runs == [] && run.state == Waiting
    ensures Alone(Step(h, UpsertRun(id, run)).hub.sessions, id, Waiting, false)
  {
    hide Notifies, ShouldNotify, AnySoloed;
    assert PutRun([], run) == [run];
    assert RollupState([run]) == Some(Waiting) by { assert [run][..0] == []; }
  }

  lemma AloneMuted(h: Hub, id: Id)
    requires Alone(h.sessions, id, Waiting, false)
    ensures Alone(Step(h, Mute(id)).hub.sessions, id, Waiting, true)
  {
    hide Notifies, AnySoloed;
  }

  lemma AfterSnoc(ops: seq<Op>, op: Op)
    ensures After(ops + [op]) == Step(After(ops), op).hub
  {
    hide Step;
    assert (ops + [op])[..|ops|] == ops;
  }

  lemma ThreeSteps(s: Session, run: AgentRun)
    requires s.runs == [] && !s.muted && !s.soloed && !s.unread && run.state == Waiting
    ensures var id := s.sessionId; var one := [UpsertSession(s)];
      && Disciplined(one + [UpsertRun(id, run), Mute(id)])
      && !Notifies(After(one).sessions, id)
      && Notifies(After(one + [UpsertRun(id, run)]).sessions, id)
      && !Notifies(After(one + [UpsertRun(id, run), Mute(id)]).sessions, id)
  {
    hide Step, Alone, After, Notifies;
    var id := s.sessionId;
    var one := [UpsertSession(s)];
    var two, three := one + [UpsertRun(id, run)], one + [UpsertRun(id, run), Mute(id)];
    assert one == [] + one && three == two + [Mute(id)];
    AfterNothing();
    AfterSnoc([], UpsertSession(s));
    AfterSnoc(one, UpsertRun(id, run));
    AfterSnoc(two, Mute(id));
    ReportedAlone(s);
    RunStartsToWait(After(one), id, run);
    AloneMuted(After(two), id);
    AloneNotifies(After(one).sessions, id, Idle, false);
    AloneNotifies(After(two).sessions, id, Waiting, false);
    AloneNotifies(After(three).sessions, id, Waiting, true);
    forall k | 0 <= k < |three| ensures FlagsPreserved(After(three[..k]).sessions, three[k]) {
      if k == 0 { assert three[..0] == []; }
    }
  }

  lemma AfterNothing()
    ensures After([]) == EmptyHub
  {
  }

  // --------------------------------------- shown, though never wanted

  lemma LastOperationShows(earlier: seq<Event>, joined: seq<Op>, op: Op, id: Id)
    requires Disciplined(joined + [op]) && (earlier != [] ==> earlier[0].Snapshot?)
    requires OperationFires(After(joined), op, id)
    ensures Valid(After(joined))
    ensures id in Notify.Linked(earlier + Stream(joined, [op])).shown
  {
    ShownExactly(earlier, joined, [op], id);
    assert [op][..0] == [];
    assert FiredBy(After(joined), [op], 0, id) by {
      hide OperationFires, After;
    }
  }

  /** On every run: a session can be shown that the Hub wants noticed neither before the
      operation nor after it. A solo moving past it does that. */
  lemma PassedOverIsShown(earlier: seq<Event>, joined: seq<Op>, op: Op, id: Id)
    requires Disciplined(joined + [op]) && (earlier != [] ==> earlier[0].Snapshot?)
    requires SoloPasses(After(joined), op, id)
    ensures Valid(After(joined))
    ensures id in Notify.Linked(earlier + Stream(joined, [op])).shown
    ensures !Notifies(After(joined).sessions, id) && !Notifies(After(joined + [op]).sessions, id)
  {
    LastOperationShows(earlier, joined, op, id);
    DisciplinedSplit(joined, [op]);
    RunKeepsPolicy(joined);
    AfterSnoc(joined, op);
    PassedOverIsSilent(After(joined), op, id);
  }

  lemma PassedOverIsSilent(h: Hub, op: Op, id: Id)
    requires Policy(h) && SoloPasses(h, op, id)
    ensures !Notifies(h.sessions, id) && !Notifies(Step(h, op).hub.sessions, id)
  {
    var i, j :| SoloMoves(h, op, i, j);
    assert h.order[j] in h.order;
    SoloLooks(h, op);
    hide Step;
    assert AnySoloed(h.sessions) && Step(h, op).hub.sessions[op.sessionId].soloed;
  }

  /** And a session that loses its last run is shown once more, just as it goes idle. */
  lemma EmptiedIsShown(earlier: seq<Event>, joined: seq<Op>, op: Op, id: Id)
    requires Disciplined(joined + [op]) && (earlier != [] ==> earlier[0].Snapshot?)
    requires Empties(After(joined), op, id)
    ensures Valid(After(joined))
    ensures id in Notify.Linked(earlier + Stream(joined, [op])).shown
    ensures !Notifies(After(joined + [op]).sessions, id)
  {
    LastOperationShows(earlier, joined, op, id);
    AfterSnoc(joined, op);
    EmptiedIsSilent(After(joined), op, id);
  }

  lemma EmptiedIsSilent(h: Hub, op: Op, id: Id)
    requires Empties(h, op, id)
    ensures !Notifies(Step(h, op).hub.sessions, id)
  {
    hide AnySoloed;
  }

  /** Both are reachable. First: a session waits, another is soloed, and the solo moves to
      one listed last. */
  lemma PassingIsReachable(y: Session, z: Session, x: Session, run: AgentRun)
    requires Unflagged(y) && Unflagged(z) && Unflagged(x) && run.state == Waiting
    requires y.sessionId != z.sessionId && z.sessionId != x.sessionId && x.sessionId != y.sessionId
    ensures var joined := ThreeListed(y, z, x) + [UpsertRun(z.sessionId, run), Solo(y.sessionId)];
      Disciplined(joined + [Solo(x.sessionId)]) && SoloPasses(After(joined), Solo(x.sessionId), z.sessionId)
  {
    hide Step, After, Disciplined, Listed, WaitsListed;
    var three := ThreeListed(y, z, x);
    var op4, op5, op6 := UpsertRun(z.sessionId, run), Solo(y.sessionId), Solo(x.sessionId);
    ThreeAreListed(y, z, x);
    AfterSnoc(three, op4);
    ListedStartsToWait(After(three), y.sessionId, z.sessionId, x.sessionId, run);
    AfterSnoc(three + [op4], op5);
    assert three + [op4] + [op5] == three + [op4, op5];
    DisciplinedMore(three, op4);
    DisciplinedMore(three + [op4], op5);
    DisciplinedMore(three + [op4, op5], op6);
    RunKeepsPolicy(three + [op4]);
    SoloedPasses(After(three + [op4]), y.sessionId, z.sessionId, x.sessionId);
  }

  predicate Unflagged(s: Session) { s.runs == [] && !s.muted && !s.soloed && !s.unread }

  function ThreeListed(y: Session, z: Session, x: Session): seq<Op> {
    [UpsertSession(y), UpsertSession(z), UpsertSession(x)]
  }

  lemma DisciplinedMore(ops: seq<Op>, op: Op)
    requires Disciplined(ops) && FlagsPreserved(After(ops).sessions, op)
    ensures Disciplined(ops + [op])
  {
    hide After, FlagsPreserved;
    var all := ops + [op];
    assert all[..|ops|] == ops;
    forall k | 0 <= k < |all| ensures FlagsPreserved(After(all[..k]).sessions, all[k]) {
      if k < |ops| { assert all[..k] == ops[..k]; }
    }
  }

  /** Exactly these sessions, in this order, without runs or flags. */
  ghost predicate Listed(h: Hub, order: seq<Id>) {
    && h.order == order && (forall id :: id in h.sessions <==> id in order)
    && forall id :: id in order ==> Unflagged(h.sessions[id]) && h.sessions[id].sessionId == id
  }

  lemma ListedMore(h: Hub, order: seq<Id>, s: Session)
    requires Listed(h, order) && Unflagged(s) && s.sessionId !in order
    ensures Listed(Step(h, UpsertSession(s)).hub, order + [s.sessionId])
    ensures FlagsPreserved(h.sessions, UpsertSession(s))
  {
    ReportedUnflagged(h.sessions, s);
    hide Settle, Rolled;
    assert forall id :: id in order + [s.sessionId] <==> id in order || id == s.sessionId;
  }

  /** A session without runs settles as it was reported. */
  lemma ReportedUnflagged(m: Sessions, s: Session)
    requires Unflagged(s) && s.sessionId !in m
    ensures var t := Settle(m, Rolled(s)); Unflagged(t) && t.sessionId == s.sessionId
  {
    hide AnySoloed;
    assert Rolled(s).rollupState == Idle;
  }

  lemma ThreeAreListed(y: Session, z: Session, x: Session)
    requires Unflagged(y) && Unflagged(z) && Unflagged(x)
    requires y.sessionId != z.sessionId && z.sessionId != x.sessionId && x.sessionId != y.sessionId
    ensures Disciplined(ThreeListed(y, z, x))
    ensures Listed(After(ThreeListed(y, z, x)), [y.sessionId, z.sessionId, x.sessionId])
  {
    hide Step, After, Disciplined, FlagsPreserved;
    NobodyListed();
    var ops: seq<Op> := [];
    var order: seq<Id> := [];
    AfterNothing();
    ListedMore(After(ops), order, y);
    AfterSnoc(ops, UpsertSession(y));
    DisciplinedMore(ops, UpsertSession(y));
    ListedMore(After(ops + [UpsertSession(y)]), order + [y.sessionId], z);
    AfterSnoc(ops + [UpsertSession(y)], UpsertSession(z));
    DisciplinedMore(ops + [UpsertSession(y)], UpsertSession(z));
    ListedMore(After(ops + [UpsertSession(y)] + [UpsertSession(z)]), order + [y.sessionId] + [z.sessionId], x);
    AfterSnoc(ops + [UpsertSession(y)] + [UpsertSession(z)], UpsertSession(x));
    DisciplinedMore(ops + [UpsertSession(y)] + [UpsertSession(z)], UpsertSession(x));
    assert ThreeListed(y, z, x) == ops + [UpsertSession(y)] + [UpsertSession(z)] + [UpsertSession(x)];
    assert [y.sessionId, z.sessionId, x.sessionId] == order + [y.sessionId] + [z.sessionId] + [x.sessionId];
  }

  lemma NobodyListed()
    ensures Listed(EmptyHub, []) && Disciplined([])
  {
  }

  ghost predicate WaitsListed(h: Hub, y: Id, z: Id, x: Id) {
    && h.order == [y, z, x] && y in h.sessions && z in h.sessions && x in h.sessions
    && h.sessions[z].rollupState == Waiting && !h.sessions[z].muted && !h.sessions[z].soloed
  }

  lemma ListedStartsToWait(h: Hub, y: Id, z: Id, x: Id, run: AgentRun)
    requires Listed(h, [y, z, x]) && run.state == Waiting
    ensures WaitsListed(Step(h, UpsertRun(z, run)).hub, y, z, x)
  {
    assert y in [y, z, x] && z in [y, z, x] && x in [y, z, x];
  }

  lemma SoloedPasses(h: Hub, y: Id, z: Id, x: Id)
    requires Policy(h) && WaitsListed(h, y, z, x) && y != z && z != x && x != y
    ensures SoloPasses(Step(h, Solo(y)).hub, Solo(x), z)
  {
    SoloLooks(h, Solo(y));
    FlagKeys(h, Solo(y));
    hide Step;
    assert SoloMoves(Step(h, Solo(y)).hub, Solo(x), 0, 2);
  }

  /** Second: a session's only run waits with an urgency, and is removed. */
  lemma EmptyingIsReachable(s: Session, run: AgentRun)
    requires Unflagged(s) && run.state == Waiting && run.urgency.Some? && run.urgency.value != NoUrgency
    ensures var id := s.sessionId; var joined := [UpsertSession(s), UpsertRun(id, run)];
      Disciplined(joined + [RemoveRun(id, run.runId)]) && Empties(After(joined), RemoveRun(id, run.runId), id)
  {
    hide Step, After, Disciplined, Listed;
    var id := s.sessionId;
    var one := [UpsertSession(s)];
    NobodyListed();
    AfterNothing();
    ListedMore(After([]), [], s);
    AfterSnoc([], UpsertSession(s));
    DisciplinedMore([], UpsertSession(s));
    assert [] + one == one && [] + [id] == [id];
    DisciplinedMore(one, UpsertRun(id, run));
    AfterSnoc(one, UpsertRun(id, run));
    assert one + [UpsertRun(id, run)] == [UpsertSession(s), UpsertRun(id, run)];
    DisciplinedMore([UpsertSession(s), UpsertRun(id, run)], RemoveRun(id, run.runId));
    OnlyRunEmpties(After(one), id, run);
  }

  lemma OnlyRunEmpties(h: Hub, id: Id, run: AgentRun)
    requires Listed(h, [id]) && run.state == Waiting && run.urgency.Some? && run.urgency.value != NoUrgency
    ensures Empties(Step(h, UpsertRun(id, run)).hub, RemoveRun(id, run.runId), id)
  {
    assert id in [id];
    assert RollupUrgency([run]) == Some(run.urgency.value) by { assert [run][..0] == []; }
    hide Settle, Rolled, RollupUrgency;
    var m := Step(h, UpsertRun(id, run)).hub.sessions;
    assert m[id].runs == [run];
    assert HasRun([run], run.runId) by { assert [run][0].runId == run.runId; }
    assert DropRun([run], run.runId) == [];
    assert !AnySoloed(m) by {
      assert forall k :: k in m ==> k in [id];
    }
  }

  function NotifyingSessions(m: Sessions): set<Id> { set id | id in m && Notifies(m, id) }

  lemma PingingIsNotifying(m: Sessions)
    requires forall id :: Notifies(m, id) == HostNotifies(m, id)
    ensures NotifyingSessions(m) == PingingIds(m)
  {
    hide Notifies, HostNotifies;
  }

  /** What the rendering shows is the badge the Hub would count. */
  lemma ShownBadge(inbox: Inbox, h: Hub)
    requires Shows(inbox, h)
    ensures inbox.waitingCount == |PingingIds(h.sessions)|
  {
  }

  /** The badge counts exactly the sessions the Hub wants noticed. */
  lemma BadgeMatchesHub(earlier: seq<Event>, joined: seq<Op>, later: seq<Op>, connected: bool, now: Option<int>)
    requires Disciplined(joined + later)
    ensures Valid(After(joined))
    ensures var model := Notify.Linked(earlier + Stream(joined, later)).model;
      RenderAt(ViewOf(model), connected, now).waitingCount == |NotifyingSessions(After(joined + later).sessions)|
  {
    hide *;
    LinkReachesHub(earlier, joined, later);
    var h := After(joined + later);
    forall id ensures Notifies(h.sessions, id) == HostNotifies(h.sessions, id) {
      NotifyRulesAgree(joined + later, id);
    }
    PingingIsNotifying(h.sessions);
    RenderShows(h, connected, now);
    ShownBadge(RenderAt(ViewOf(h), connected, now), h);
  }
}
