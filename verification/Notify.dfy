/** Desktop notifications derived from view transitions: what the outcome stream asks
    for, and what delivery leaves on the screen. */
module Notify {
  import opened Protocol
  import opened MergeSpec
  import opened Faces
  import opened View
  import Rail
  import Attention

  datatype Sound = ApprovalSound | QuestionSound

  datatype Outcome =
    | Fire(sessionId: Id, sound: Option<Sound>)
    | AutoResolve(sessionId: Id)
    | Noop

  function SoundFor(urgency: Option<Urgency>): Option<Sound> {
    match urgency
    case Some(Approval) => Some(ApprovalSound)
    case Some(Question) => Some(QuestionSound)
    case _ => None
  }

  /** The shared per-session core; the callers decide what "pending" means. */
  function SessionTransition(old': Option<Tab>, new': Option<Tab>, was: bool, now: bool, suppressed: bool): Outcome {
    match new'
    case Some(tab) =>
      if !was && now then (if suppressed then Noop else Fire(tab.Id(), SoundFor(tab.facts.urgency)))
      else if old'.Some? && was && !now then AutoResolve(tab.Id())
      else if old'.Some? && was && now && old'.value.facts.urgency != tab.facts.urgency then
        (if suppressed then Noop else Fire(tab.Id(), SoundFor(tab.facts.urgency)))
      else Noop
    case None =>
      if old'.Some? && was then AutoResolve(old'.value.Id()) else Noop
  }

  function FindTab(tabs: Tabs, id: Id): Option<Tab> {
    if tabs == [] then None
    else if tabs[0].Id() == id then Some(tabs[0])
    else FindTab(tabs[1..], id)
  }

  lemma {:induction false} FindTabMeaning(tabs: Tabs, id: Id)
    ensures FindTab(tabs, id).Some? <==> exists i :: 0 <= i < |tabs| && tabs[i].Id() == id
    ensures FindTab(tabs, id).Some? ==> FindTab(tabs, id).value in tabs && FindTab(tabs, id).value.Id() == id
  {
    if tabs != [] {
      FindTabMeaning(tabs[1..], id);
      assert forall i :: 1 <= i < |tabs| ==> tabs[i] == tabs[1..][i - 1];
      if FindTab(tabs[1..], id).Some? {
        var i :| 0 <= i < |tabs[1..]| && tabs[1..][i].Id() == id;
        assert tabs[i + 1].Id() == id;
      }
    }
  }

  lemma FindTabUnique(tabs: Tabs, i: nat)
    requires DistinctTabs(tabs) && i < |tabs|
    ensures FindTab(tabs, tabs[i].Id()) == Some(tabs[i])
  {
    FindTabMeaning(tabs, tabs[i].Id());
  }

  predicate PendingIn(tabs: Tabs, id: Id) {
    var t := FindTab(tabs, id);
    t.Some? && ShouldPing(t.value, tabs)
  }

  /** What happens to one session between two views. */
  function OutcomeFor(old': Tabs, new': Tabs, id: Id): Outcome {
    SessionTransition(FindTab(old', id), FindTab(new', id), PendingIn(old', id), PendingIn(new', id), false)
  }

  // --------------------------------------------------------------- the loop

  function Kept(o: Outcome): seq<Outcome> { if o == Noop then [] else [o] }

  function NewOutcomes(old': Tabs, new': Tabs, n: nat): seq<Outcome>
    requires n <= |new'|
  {
    if n == 0 then []
    else
      var t := new'[n - 1];
      var was := FindTab(old', t.Id()).Some? && ShouldPing(FindTab(old', t.Id()).value, old');
      NewOutcomes(old', new', n - 1)
        + Kept(SessionTransition(FindTab(old', t.Id()), Some(t), was, ShouldPing(t, new'), false))
  }

  function GoneOutcomes(old': Tabs, new': Tabs, n: nat): seq<Outcome>
    requires n <= |old'|
  {
    if n == 0 then []
    else
      var t := old'[n - 1];
      GoneOutcomes(old', new', n - 1)
        + (if FindTab(new', t.Id()).Some? then []
           else Kept(SessionTransition(Some(t), None, ShouldPing(t, old'), false, false)))
  }

  function ViewOutcomes(old': Tabs, new': Tabs): seq<Outcome> {
    NewOutcomes(old', new', |new'|) + GoneOutcomes(old', new', |old'|)
  }

  method ViewTransition(old': Tabs, new': Tabs) returns (outcomes: seq<Outcome>)
    ensures outcomes == ViewOutcomes(old', new')
  {
    outcomes := [];
    for i := 0 to |new'|
      invariant outcomes == NewOutcomes(old', new', i)
    {
      var tab := new'[i];
      var before := FindTab(old', tab.Id());
      var was := before.Some? && ShouldPing(before.value, old');
      var o := SessionTransition(before, Some(tab), was, ShouldPing(tab, new'), false);
      if o != Noop {
        outcomes := outcomes + [o];
      }
    }
    for i := 0 to |old'|
      invariant outcomes == NewOutcomes(old', new', |new'|) + GoneOutcomes(old', new', i)
    {
      var tab := old'[i];
      if FindTab(new', tab.Id()).None? {
        var o := SessionTransition(Some(tab), None, ShouldPing(tab, old'), false, false);
        if o != Noop {
          outcomes := outcomes + [o];
        }
      }
    }
  }

  // ------------------------------------------------------ what is reported

  lemma {:induction false} NewOutcomesMeaning(old': Tabs, new': Tabs, n: nat)
    requires DistinctTabs(old') && DistinctTabs(new') && n <= |new'|
    ensures forall o :: o in NewOutcomes(old', new', n) <==>
      o != Noop && exists i :: 0 <= i < n && o == OutcomeFor(old', new', new'[i].Id())
  {
    if n > 0 {
      NewOutcomesMeaning(old', new', n - 1);
      FindTabUnique(new', n - 1);
    }
  }

  lemma {:induction false} GoneOutcomesMeaning(old': Tabs, new': Tabs, n: nat)
    requires DistinctTabs(old') && DistinctTabs(new') && n <= |old'|
    ensures forall o :: o in GoneOutcomes(old', new', n) <==>
      o != Noop &&
      exists i :: 0 <= i < n && FindTab(new', old'[i].Id()).None? && o == OutcomeFor(old', new', old'[i].Id())
  {
    if n > 0 {
      GoneOutcomesMeaning(old', new', n - 1);
      FindTabUnique(old', n - 1);
    }
  }

  lemma OutcomeNamesSession(old': Tabs, new': Tabs, id: Id)
    ensures var o := OutcomeFor(old', new', id); o != Noop ==> o.sessionId == id
    ensures FindTab(old', id).None? && FindTab(new', id).None? ==> OutcomeFor(old', new', id) == Noop
  {
    FindTabMeaning(old', id);
    FindTabMeaning(new', id);
  }

  /** Every entry is about a session, and no two about the same one. */
  ghost predicate OneEach(outcomes: seq<Outcome>) {
    && (forall i :: 0 <= i < |outcomes| ==> outcomes[i] != Noop)
    && (forall i, j :: 0 <= i < j < |outcomes| ==> outcomes[i].sessionId != outcomes[j].sessionId)
  }

  lemma OneEachGrows(outcomes: seq<Outcome>, o: Outcome)
    requires OneEach(outcomes)
    requires o != Noop ==> forall p :: p in outcomes && p != Noop ==> p.sessionId != o.sessionId
    ensures OneEach(outcomes + Kept(o))
  {
    assert forall i :: 0 <= i < |outcomes| ==> outcomes[i] in outcomes;
  }

  lemma {:induction false} NewOutcomesOneEach(old': Tabs, new': Tabs, n: nat)
    requires DistinctTabs(old') && DistinctTabs(new') && n <= |new'|
    ensures OneEach(NewOutcomes(old', new', n))
  {
    if n > 0 {
      NewOutcomesOneEach(old', new', n - 1);
      NewOutcomesMeaning(old', new', n - 1);
      FindTabUnique(new', n - 1);
      forall k: Id { OutcomeNamesSession(old', new', k); }
      hide OneEach, FindTab, OutcomeFor;
      OneEachGrows(NewOutcomes(old', new', n - 1), OutcomeFor(old', new', new'[n - 1].Id()));
      NewOutcomesStep(old', new', n);
    }
  }

  lemma NewOutcomesStep(old': Tabs, new': Tabs, n: nat)
    requires DistinctTabs(new') && 0 < n <= |new'|
    ensures NewOutcomes(old', new', n) ==
      NewOutcomes(old', new', n - 1) + Kept(OutcomeFor(old', new', new'[n - 1].Id()))
  {
    FindTabUnique(new', n - 1);
  }

  lemma GoneOutcomesStep(old': Tabs, new': Tabs, n: nat)
    requires DistinctTabs(old') && 0 < n <= |old'|
    ensures GoneOutcomes(old', new', n) == GoneOutcomes(old', new', n - 1)
      + (if FindTab(new', old'[n - 1].Id()).Some? then [] else Kept(OutcomeFor(old', new', old'[n - 1].Id())))
  {
    FindTabUnique(old', n - 1);
  }

  lemma {:induction false} AllOutcomesOneEach(old': Tabs, new': Tabs, n: nat)
    requires DistinctTabs(old') && DistinctTabs(new') && n <= |old'|
    ensures OneEach(NewOutcomes(old', new', |new'|) + GoneOutcomes(old', new', n))
  {
    var news := NewOutcomes(old', new', |new'|);
    if n == 0 {
      NewOutcomesOneEach(old', new', |new'|);
      assert news + [] == news;
    } else {
      AllOutcomesOneEach(old', new', n - 1);
      GoneOutcomesStep(old', new', n);
      var gone, t := GoneOutcomes(old', new', n - 1), old'[n - 1];
      if FindTab(new', t.Id()).Some? {
        assert GoneOutcomes(old', new', n) == gone;
      } else {
        GoneIsNew(old', new', n);
        OneEachGrows(news + gone, OutcomeFor(old', new', t.Id()));
        var last := Kept(OutcomeFor(old', new', t.Id()));
        assert news + (gone + last) == (news + gone) + last;
      }
    }
  }

  /** A vanished session is not named by anything reported before it. */
  lemma GoneIsNew(old': Tabs, new': Tabs, n: nat)
    requires DistinctTabs(old') && DistinctTabs(new') && 0 < n <= |old'| && FindTab(new', old'[n - 1].Id()).None?
    ensures var o := OutcomeFor(old', new', old'[n - 1].Id());
      o != Noop ==> forall p :: p in NewOutcomes(old', new', |new'|) + GoneOutcomes(old', new', n - 1) && p != Noop ==>
        p.sessionId != o.sessionId
  {
    hide OutcomeFor;
    NewOutcomesMeaning(old', new', |new'|);
    GoneOutcomesMeaning(old', new', n - 1);
    FindTabMeaning(new', old'[n - 1].Id());
    forall k: Id { OutcomeNamesSession(old', new', k); }
  }

  /** Exactly the sessions whose outcome is not a no-op are reported, each once. */
  lemma OutcomesAreExact(old': Tabs, new': Tabs, id: Id)
    requires DistinctTabs(old') && DistinctTabs(new')
    ensures forall o: Outcome :: o != Noop && o.sessionId == id ==>
      (o in ViewOutcomes(old', new') <==> o == OutcomeFor(old', new', id))
    ensures OneEach(ViewOutcomes(old', new'))
  {
    NewOutcomesMeaning(old', new', |new'|);
    GoneOutcomesMeaning(old', new', |old'|);
    AllOutcomesOneEach(old', new', |old'|);
    FindTabMeaning(old', id);
    FindTabMeaning(new', id);
    forall k: Id { OutcomeNamesSession(old', new', k); }
    var o := OutcomeFor(old', new', id);
    if o != Noop {
      if FindTab(new', id).Some? {
        assert o in NewOutcomes(old', new', |new'|);
      } else {
        assert o in GoneOutcomes(old', new', |old'|);
      }
    }
  }

  predicate Sounds(urgency: Option<Urgency>, sound: Option<Sound>) {
    && (urgency == Some(Approval) <==> sound == Some(ApprovalSound))
    && (urgency == Some(Question) <==> sound == Some(QuestionSound))
  }

  /** What a fire says: the session, and the sound its new urgency calls for. */
  lemma FiresSound(old': Tabs, new': Tabs, o: Outcome)
    requires DistinctTabs(old') && DistinctTabs(new') && o in ViewOutcomes(old', new') && o.Fire?
    ensures exists t :: t in new' && t.Id() == o.sessionId && Sounds(t.facts.urgency, o.sound)
  {
    OutcomesAreExact(old', new', o.sessionId);
    FindTabMeaning(new', o.sessionId);
    hide ViewOutcomes, PendingIn, FindTab;
    var t := FindTab(new', o.sessionId).value;
    assert t in new';
  }

  // ------------------------------------------------------------ conservation

  function NotifyingIds(tabs: Tabs): set<Id> {
    set i | 0 <= i < |tabs| && PendingIn(tabs, tabs[i].Id()) :: tabs[i].Id()
  }

  lemma NotifyingMeaning(tabs: Tabs, id: Id)
    ensures id in NotifyingIds(tabs) <==> PendingIn(tabs, id)
  {
    FindTabMeaning(tabs, id);
  }

  /** What an outcome stream asks to be outstanding: fires add, auto-resolves remove. */
  function Fold(pending: set<Id>, outcomes: seq<Outcome>): set<Id> {
    if outcomes == [] then pending
    else
      var rest := Fold(pending, outcomes[..|outcomes| - 1]);
      match outcomes[|outcomes| - 1]
      case Fire(id, _) => rest + {id}
      case AutoResolve(id) => rest - {id}
      case Noop => rest
  }

  predicate Fired(outcomes: seq<Outcome>, id: Id) {
    exists i :: 0 <= i < |outcomes| && outcomes[i].Fire? && outcomes[i].sessionId == id
  }

  lemma {:induction false} FoldMeaning(pending: set<Id>, outcomes: seq<Outcome>, id: Id)
    requires !(Fired(outcomes, id) && AutoResolve(id) in outcomes)
    ensures id in Fold(pending, outcomes) <==>
      Fired(outcomes, id) || (id in pending && AutoResolve(id) !in outcomes)
  {
    if outcomes != [] {
      var n := |outcomes| - 1;
      var init := outcomes[..n];
      assert outcomes == init + [outcomes[n]];
      assert Fired(outcomes, id) <==> Fired(init, id) || (outcomes[n].Fire? && outcomes[n].sessionId == id) by {
        if Fired(init, id) {
          var i :| 0 <= i < n && init[i].Fire? && init[i].sessionId == id;
          assert outcomes[i] == init[i];
        }
        if Fired(outcomes, id) {
          var i :| 0 <= i < |outcomes| && outcomes[i].Fire? && outcomes[i].sessionId == id;
          assert i == n || init[i] == outcomes[i];
        }
      }
      FoldMeaning(pending, init, id);
    }
  }

  predicate UrgencyKept(old': Tabs, new': Tabs, id: Id) {
    var a, b := FindTab(old', id), FindTab(new', id);
    a.Some? && b.Some? && a.value.facts.urgency == b.value.facts.urgency
  }

  /** One transition, from any outstanding set: an id is outstanding afterwards iff it
      fired, or it was and has not been resolved. One still notifying fires again exactly
      on an urgency change. */
  lemma TransitionMeaning(pending: set<Id>, old': Tabs, new': Tabs, id: Id)
    requires DistinctTabs(old') && DistinctTabs(new')
    ensures id in Fold(pending, ViewOutcomes(old', new')) <==>
      if PendingIn(new', id) then id in pending || !PendingIn(old', id) || !UrgencyKept(old', new', id)
      else id in pending && !PendingIn(old', id)
    ensures Fired(ViewOutcomes(old', new'), id) <==>
      PendingIn(new', id) && (!PendingIn(old', id) || !UrgencyKept(old', new', id))
  {
    var outcomes := ViewOutcomes(old', new');
    OutcomesAreExact(old', new', id);
    FindTabMeaning(old', id);
    FindTabMeaning(new', id);
    var o := OutcomeFor(old', new', id);
    assert Fired(outcomes, id) <==> o.Fire? by {
      if o.Fire? {
        assert o in outcomes;
      }
    }
    assert AutoResolve(id) in outcomes <==> o == AutoResolve(id);
    FoldMeaning(pending, outcomes, id);
  }

  function FoldViews(views: seq<Tabs>): set<Id> {
    if views == [] then {}
    else
      var n := |views| - 1;
      Fold(FoldViews(views[..n]), ViewOutcomes(if n == 0 then [] else views[n - 1], views[n]))
  }

  lemma TransitionConserves(old': Tabs, new': Tabs)
    requires DistinctTabs(old') && DistinctTabs(new')
    ensures Fold(NotifyingIds(old'), ViewOutcomes(old', new')) == NotifyingIds(new')
  {
    forall id ensures id in Fold(NotifyingIds(old'), ViewOutcomes(old', new')) <==> id in NotifyingIds(new') {
      TransitionMeaning(NotifyingIds(old'), old', new', id);
      NotifyingMeaning(old', id);
      NotifyingMeaning(new', id);
    }
  }

  /** Conservation: along any sequence of views, starting from the empty one, the outcomes
      leave outstanding exactly what should notify. */
  lemma {:induction false} PendingIsConserved(views: seq<Tabs>)
    requires forall k :: 0 <= k < |views| ==> DistinctTabs(views[k])
    ensures FoldViews(views) == if views == [] then {} else NotifyingIds(views[|views| - 1])
  {
    if views != [] {
      var n := |views| - 1;
      PendingIsConserved(views[..n]);
      if n == 0 {
        assert NotifyingIds([]) == {};
        TransitionConserves([], views[0]);
      } else {
        TransitionConserves(views[n - 1], views[n]);
      }
    }
  }

  /** The badge number is the size of that set. */
  lemma BadgeCountsPending(g: Hub, connected: bool, now: Option<int>)
    requires LockStep(g.sessions, g.order)
    ensures Rail.RenderAt(ViewOf(g), connected, now).waitingCount == |NotifyingIds(ViewOf(g))|
  {
    Rail.RenderShows(g, connected, now);
    Rail.DistinctViewTabs(g);
    var view := ViewOf(g);
    forall id ensures id in NotifyingIds(view) <==> id in Rail.PingingIds(g.sessions) {
      ViewPendingIsHostNotifies(g, id);
      NotifyingMeaning(view, id);
    }
    assert NotifyingIds(view) == Rail.PingingIds(g.sessions);
  }

  lemma ViewPendingIsHostNotifies(g: Hub, id: Id)
    requires LockStep(g.sessions, g.order)
    ensures PendingIn(ViewOf(g), id) <==> Attention.HostNotifies(g.sessions, id)
  {
    hide FindTab, ViewOf, AnySoloed;
    var view := ViewOf(g);
    FindTabMeaning(view, id);
    Rail.SortedViewTabs(g, view);
    Rail.SortedViewSolo(view, g.sessions);
  }

  // ----------------------------------------------------------- the Hub link

  /** The host face's loop: reduce each event, derive outcomes from every event but the
      very first snapshot, and deliver them. `outstanding` is what the outcomes ask for;
      `shown` is what delivery has put on the screen and never takes back. */
  datatype Link = Link(model: Hub, seenSnapshot: bool, outstanding: set<Id>, shown: set<Id>)

  const Unlinked := Link(EmptyHub, false, {}, {})

  predicate DerivesNotifications(e: Event, seenSnapshot: bool) {
    !e.Snapshot? || seenSnapshot
  }

  /** Delivery acts on fires alone: an auto-resolve dismisses nothing. */
  function Delivered(shown: set<Id>, outcomes: seq<Outcome>): set<Id> {
    if outcomes == [] then shown
    else
      var before := Delivered(shown, outcomes[..|outcomes| - 1]);
      if outcomes[|outcomes| - 1].Fire? then before + {outcomes[|outcomes| - 1].sessionId} else before
  }

  lemma {:induction false} DeliveredMeaning(shown: set<Id>, outcomes: seq<Outcome>, id: Id)
    ensures id in Delivered(shown, outcomes) <==> id in shown || Fired(outcomes, id)
  {
    if outcomes != [] {
      var n := |outcomes| - 1;
      DeliveredMeaning(shown, outcomes[..n], id);
    }
  }

  /** The outcomes one event gives rise to. */
  function OutcomesOf(link: Link, e: Event): seq<Outcome>
    requires LockStep(link.model.sessions, link.model.order)
  {
    GuiApplyLockStep(link.model, e);
    if DerivesNotifications(e, link.seenSnapshot) then ViewOutcomes(ViewOf(link.model), ViewOf(GuiApply(link.model, e)))
    else []
  }

  function Receive(link: Link, e: Event): Link
    requires LockStep(link.model.sessions, link.model.order)
  {
    var outcomes := OutcomesOf(link, e);
    Link(GuiApply(link.model, e), link.seenSnapshot || e.Snapshot?,
         Fold(link.outstanding, outcomes), Delivered(link.shown, outcomes))
  }

  class HubLink {
    var model: Hub
    var seenSnapshot: bool
    var shown: set<Id>
    ghost var outstanding: set<Id>

    ghost function State(): Link reads this { Link(model, seenSnapshot, outstanding, shown) }

    constructor ()
      ensures State() == Unlinked
    {
      model, seenSnapshot, shown, outstanding := EmptyHub, false, {}, {};
    }

    method Deliver(outcomes: seq<Outcome>)
      modifies this`shown
      ensures shown == Delivered(old(shown), outcomes)
    {
      for i := 0 to |outcomes|
        invariant shown == Delivered(old(shown), outcomes[..i])
      {
        assert outcomes[..i + 1][..i] == outcomes[..i];
        if outcomes[i].Fire? {
          shown := shown + {outcomes[i].sessionId};
        }
      }
      assert outcomes[..|outcomes|] == outcomes;
    }

    method OnEvent(e: Event)
      requires LockStep(model.sessions, model.order)
      modifies this
      ensures State() == Receive(old(State()), e) && LockStep(model.sessions, model.order)
    {
      GuiApplyLockStep(model, e);
      var previous := ViewOf(model);
      var derives := DerivesNotifications(e, seenSnapshot);
      model := GuiApply(model, e);
      if e.Snapshot? {
        seenSnapshot := true;
      }
      var outcomes: seq<Outcome> := [];
      if derives {
        outcomes := ViewTransition(previous, ViewOf(model));
      }
      outstanding := Fold(outstanding, outcomes);
      Deliver(outcomes);
    }
  }

  function Linked(events: seq<Event>): (link: Link)
    ensures LockStep(link.model.sessions, link.model.order)
  {
    if events == [] then Unlinked
    else
      var before := Linked(events[..|events| - 1]);
      GuiApplyLockStep(before.model, events[|events| - 1]);
      Receive(before, events[|events| - 1])
  }

  /** The view after each event received so far. */
  function ViewsAlong(events: seq<Event>): (views: seq<Tabs>)
    ensures |views| == |events|
    ensures events != [] ==> views[|events| - 1] == ViewOf(Linked(events).model)
  {
    if events == [] then [] else ViewsAlong(events[..|events| - 1]) + [ViewOf(Linked(events).model)]
  }

  /** Notifications along the views of one link: silent on the first, then diffed. */
  function FoldAfterFirst(views: seq<Tabs>): set<Id> {
    if |views| <= 1 then {}
    else
      var n := |views| - 1;
      Fold(FoldAfterFirst(views[..n]), ViewOutcomes(views[n - 1], views[n]))
  }

  /** A session already notifying when the face joined, silent as long as it keeps
      notifying with the same urgency. */
  ghost predicate InheritedQuietly(views: seq<Tabs>, id: Id) {
    && (forall k :: 0 <= k < |views| ==> PendingIn(views[k], id))
    && (forall k :: 1 <= k < |views| ==> UrgencyKept(views[k - 1], views[k], id))
  }

  /** A notification is outstanding exactly when the session should notify and was not
      silently inherited from the first view. */
  lemma {:induction false} PendingAfterFirst(views: seq<Tabs>, id: Id)
    requires views != [] && forall k :: 0 <= k < |views| ==> DistinctTabs(views[k])
    ensures id in FoldAfterFirst(views) <==> PendingIn(views[|views| - 1], id) && !InheritedQuietly(views, id)
  {
    hide Fold, ViewOutcomes, PendingIn, UrgencyKept, DistinctTabs;
    var n := |views| - 1;
    if n > 0 {
      var init := views[..n];
      assert forall k :: 0 <= k < n ==> init[k] == views[k];
      PendingAfterFirst(init, id);
      TransitionMeaning(FoldAfterFirst(init), views[n - 1], views[n], id);
    }
  }

  lemma LinkAdvances(events: seq<Event>)
    requires events != [] && Linked(events[..|events| - 1]).seenSnapshot
    ensures var before, link := Linked(events[..|events| - 1]), Linked(events);
      && link.seenSnapshot
      && link.outstanding == Fold(before.outstanding, ViewOutcomes(ViewOf(before.model), ViewOf(link.model)))
  {
    hide GuiApply, ViewOutcomes, Fold, Delivered, ViewOf;
  }

  lemma LinkStarts(events: seq<Event>)
    requires |events| == 1 && events[0].Snapshot?
    ensures Linked(events).seenSnapshot && Linked(events).outstanding == {}
  {
    hide GuiApply;
    assert Linked(events[..0]) == Unlinked;
  }

  /** A stream that opens with its snapshot, as the Hub sends it, folds its views. */
  lemma {:induction false} LinkFoldsViews(events: seq<Event>)
    requires events != [] && events[0].Snapshot?
    ensures Linked(events).outstanding == FoldAfterFirst(ViewsAlong(events))
    ensures Linked(events).seenSnapshot
    ensures forall k :: 0 <= k < |events| ==> DistinctTabs(ViewsAlong(events)[k])
  {
    hide Linked, Fold, ViewOutcomes, ViewOf, DistinctTabs;
    var n := |events| - 1;
    var init := events[..n];
    Rail.DistinctViewTabs(Linked(events).model);
    if n > 0 {
      LinkFoldsViews(init);
      LinkAdvances(events);
      assert ViewsAlong(events)[..n] == ViewsAlong(init);
      assert ViewsAlong(events)[n - 1] == ViewOf(Linked(init).model);
    } else {
      LinkStarts(events);
    }
  }

  /** Over any event stream that opens with a snapshot, the outcomes leave nothing
      outstanding that should not notify, and what is missing was inherited silently. */
  lemma LinkPendingIsExact(events: seq<Event>, id: Id)
    requires events != [] && events[0].Snapshot?
    ensures id in Linked(events).outstanding <==>
      PendingIn(ViewOf(Linked(events).model), id) && !InheritedQuietly(ViewsAlong(events), id)
  {
    LinkFoldsViews(events);
    PendingAfterFirst(ViewsAlong(events), id);
  }

  /** The outcomes never leave more outstanding than the badge counts. */
  lemma LinkPendingIsNotifying(events: seq<Event>)
    requires events != [] && events[0].Snapshot?
    ensures Linked(events).outstanding <= NotifyingIds(ViewOf(Linked(events).model))
  {
    forall id | id in Linked(events).outstanding ensures id in NotifyingIds(ViewOf(Linked(events).model)) {
      LinkPendingIsExact(events, id);
      NotifyingMeaning(ViewOf(Linked(events).model), id);
    }
  }

  // ------------------------------------------------- what stays on screen

  /** The k-th view makes the session ping afresh. */
  predicate FiresAt(views: seq<Tabs>, k: int, id: Id) {
    1 <= k < |views| && PendingIn(views[k], id)
      && (!PendingIn(views[k - 1], id) || !UrgencyKept(views[k - 1], views[k], id))
  }

  ghost predicate FiredAlong(views: seq<Tabs>, id: Id) {
    exists k :: FiresAt(views, k, id)
  }

  lemma FiredAlongUnfold(views: seq<Tabs>, id: Id)
    requires views != []
    ensures var n := |views| - 1; FiredAlong(views, id) <==> FiredAlong(views[..n], id) || FiresAt(views, n, id)
  {
    var n := |views| - 1;
    hide PendingIn, UrgencyKept;
    if k :| FiresAt(views[..n], k, id) { assert FiresAt(views, k, id); }
    if k :| FiresAt(views, k, id) { assert k == n || FiresAt(views[..n], k, id); }
  }

  lemma ReceiveShows(link: Link, e: Event, id: Id)
    requires LockStep(link.model.sessions, link.model.order) && link.seenSnapshot
    ensures LockStep(Receive(link, e).model.sessions, Receive(link, e).model.order)
    ensures var old', new' := ViewOf(link.model), ViewOf(Receive(link, e).model);
      id in Receive(link, e).shown <==>
        id in link.shown || (PendingIn(new', id) && (!PendingIn(old', id) || !UrgencyKept(old', new', id)))
  {
    GuiApplyLockStep(link.model, e);
    var outcomes := OutcomesOf(link, e);
    DeliveredMeaning(link.shown, outcomes, id);
    Rail.DistinctViewTabs(link.model);
    Rail.DistinctViewTabs(GuiApply(link.model, e));
    TransitionMeaning({}, ViewOf(link.model), ViewOf(GuiApply(link.model, e)), id);
  }

  /** What is on the screen is exactly what ever fired. */
  lemma {:induction false} ShownIsHistory(events: seq<Event>, id: Id)
    requires events != [] && events[0].Snapshot?
    ensures id in Linked(events).shown <==> FiredAlong(ViewsAlong(events), id)
    decreases |events|
  {
    var n := |events| - 1;
    var init, views := events[..n], ViewsAlong(events);
    assert views[..n] == ViewsAlong(init);
    hide FiredAlong, FiresAt, Delivered, Fold, ViewOutcomes, GuiApply, PendingIn, UrgencyKept, ViewOf;
    FiredAlongUnfold(views, id);
    if n == 0 {
      FirstIsSilent(events, id);
    } else {
      ShownIsHistory(init, id);
      LinkFoldsViews(init);
      ReceiveShows(Linked(init), events[n], id);
    }
  }

  lemma FirstIsSilent(events: seq<Event>, id: Id)
    requires |events| == 1 && events[0].Snapshot?
    ensures id !in Linked(events).shown && !FiredAlong(ViewsAlong(events), id)
  {
    hide GuiApply;
    assert events[..0] == [];
    assert Linked(events[..0]) == Unlinked;
  }

  /** Whatever the outcomes leave outstanding is shown; beyond that, exactly the
      sessions that fired and have stopped to notify are stuck on the screen. */
  lemma StuckExactly(events: seq<Event>, id: Id)
    requires events != [] && events[0].Snapshot?
    ensures id in Linked(events).outstanding ==> id in Linked(events).shown
    ensures id in Linked(events).shown - Linked(events).outstanding <==>
      FiredAlong(ViewsAlong(events), id) && !PendingIn(ViewOf(Linked(events).model), id)
  {
    hide Linked, ViewOf, PendingIn, UrgencyKept;
    ShownIsHistory(events, id);
    LinkPendingIsExact(events, id);
    if PendingIn(ViewOf(Linked(events).model), id) { FiredOrQuiet(ViewsAlong(events), id); }
  }

  /** A session that notifies now either fired on the way or was inherited quietly. */
  lemma {:induction false} FiredOrQuiet(views: seq<Tabs>, id: Id)
    requires views != [] && PendingIn(views[|views| - 1], id)
    ensures FiredAlong(views, id) <==> !InheritedQuietly(views, id)
  {
    hide PendingIn, UrgencyKept;
    var n := |views| - 1;
    if n > 0 {
      FiredAlongUnfold(views, id);
      if !FiresAt(views, n, id) { FiredOrQuiet(views[..n], id); }
    }
  }
}
