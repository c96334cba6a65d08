/** The faces' reducers: the GUI's `InboxModel` (sessions and order) and the CLI's
    `CliState` (sessions only), folding Hub events back into state. */
module Faces {
  import opened Protocol
  import opened MergeSpec

  // ------------------------------------------------------------- reducers

  /** The GUI keeps the old rollup state when the run set empties. */
  function GuiRolled(s: Session): Session {
    var rolled := RollupState(s.runs);
    s.(rollupState := if rolled.Some? then rolled.value else s.rollupState,
       rollupUrgency := NormalizedUrgency(s.runs))
  }

  function GuiStore(g: Hub, s: Session): Hub {
    Hub(g.sessions[s.sessionId := s],
        if s.sessionId in g.sessions then g.order else g.order + [s.sessionId])
  }

  function GuiStoreAll(g: Hub, list: seq<Session>): Hub {
    if list == [] then g
    else GuiStore(GuiStoreAll(g, list[..|list| - 1]), list[|list| - 1])
  }

  function GuiApply(g: Hub, e: Event): Hub {
    match e
    case Snapshot(list) => GuiStoreAll(EmptyHub, list)
    case SessionAdded(s) => GuiStore(g, s)
    case SessionUpdated(s) => GuiStore(g, s)
    case SessionRemoved(id) =>
      if id in g.sessions then Hub(g.sessions - {id}, Without(g.order, id)) else g
    case RunAdded(id, run) => GuiPutRun(g, id, run)
    case RunUpdated(id, run) => GuiPutRun(g, id, run)
    case RunRemoved(id, runId) =>
      if id !in g.sessions then g
      else
        var s := g.sessions[id];
        g.(sessions := g.sessions[id := GuiRolled(s.(runs := DropRun(s.runs, runId)))])
  }

  function GuiPutRun(g: Hub, id: Id, run: AgentRun): Hub {
    if id !in g.sessions then g
    else
      var s := g.sessions[id];
      g.(sessions := g.sessions[id := GuiRolled(s.(runs := PutRun(s.runs, run)))])
  }

  function GuiApplyAll(g: Hub, events: seq<Event>): Hub
    decreases |events|
  {
    if events == [] then g else GuiApplyAll(GuiApply(g, events[0]), events[1..])
  }

  function CliStoreAll(c: Sessions, list: seq<Session>): Sessions {
    if list == [] then c
    else CliStoreAll(c, list[..|list| - 1])[list[|list| - 1].sessionId := list[|list| - 1]]
  }

  function CliApply(c: Sessions, e: Event): Sessions {
    match e
    case Snapshot(list) => CliStoreAll(map[], list)
    case SessionAdded(s) => c[s.sessionId := s]
    case SessionUpdated(s) => c[s.sessionId := s]
    case SessionRemoved(id) => c - {id}
    case RunAdded(id, run) => CliPutRun(c, id, run)
    case RunUpdated(id, run) => CliPutRun(c, id, run)
    case RunRemoved(id, runId) =>
      if id !in c then c else c[id := Rolled(c[id].(runs := DropRun(c[id].runs, runId)))]
  }

  function CliPutRun(c: Sessions, id: Id, run: AgentRun): Sessions {
    if id !in c then c else c[id := Rolled(c[id].(runs := PutRun(c[id].runs, run)))]
  }

  function CliApplyAll(c: Sessions, events: seq<Event>): Sessions
    decreases |events|
  {
    if events == [] then c else CliApplyAll(CliApply(c, events[0]), events[1..])
  }

  lemma {:induction false} GuiApplyAllConcat(g: Hub, a: seq<Event>, b: seq<Event>)
    ensures GuiApplyAll(g, a + b) == GuiApplyAll(GuiApplyAll(g, a), b)
    decreases |a|
  {
    if a == [] {
      assert a + b == b;
    } else {
      assert (a + b)[0] == a[0] && (a + b)[1..] == a[1..] + b;
      GuiApplyAllConcat(GuiApply(g, a[0]), a[1..], b);
    }
  }

  lemma {:induction false} CliApplyAllConcat(c: Sessions, a: seq<Event>, b: seq<Event>)
    ensures CliApplyAll(c, a + b) == CliApplyAll(CliApplyAll(c, a), b)
    decreases |a|
  {
    if a == [] {
      assert a + b == b;
    } else {
      assert (a + b)[0] == a[0] && (a + b)[1..] == a[1..] + b;
      CliApplyAllConcat(CliApply(c, a[0]), a[1..], b);
    }
  }

  // ------------------------------------------------------ mutable reducers

  /** The GUI face's reducer object. */
  class InboxModel {
    var sessions: Sessions
    var order: seq<Id>

    ghost function Model(): Hub reads this { Hub(sessions, order) }

    constructor ()
      ensures Model() == EmptyHub
    {
      sessions, order := map[], [];
    }

    method Apply(event: Event)
      modifies this
      ensures Model() == GuiApply(old(Model()), event)
    {
      match event {
        case Snapshot(list) =>
          sessions, order := map[], [];
          for i := 0 to |list|
            invariant Model() == GuiStoreAll(EmptyHub, list[..i])
          {
            assert list[..i + 1][..i] == list[..i];
            Store(list[i]);
          }
          assert list[..|list|] == list;
        case SessionAdded(session) => Store(session);
        case SessionUpdated(session) => Store(session);
        case SessionRemoved(id) =>
          if id in sessions {
            sessions := sessions - {id};
            order := Without(order, id);
          }
        case RunAdded(id, run) => UpsertRun(id, run);
        case RunUpdated(id, run) => UpsertRun(id, run);
        case RunRemoved(id, runId) =>
          if id in sessions {
            var s := sessions[id];
            sessions := sessions[id := GuiRolled(s.(runs := DropRun(s.runs, runId)))];
          }
      }
    }

    method Store(session: Session)
      modifies this
      ensures Model() == GuiStore(old(Model()), session)
    {
      if session.sessionId !in sessions {
        order := order + [session.sessionId];
      }
      sessions := sessions[session.sessionId := session];
    }

    method UpsertRun(id: Id, run: AgentRun)
      modifies this
      ensures Model() == GuiPutRun(old(Model()), id, run)
    {
      if id in sessions {
        var s := sessions[id];
        sessions := sessions[id := GuiRolled(s.(runs := PutRun(s.runs, run)))];
      }
    }
  }

  // ---------------------------------------------------- replication, per op

  lemma {:induction false} GuiAppliesUpdates(g: Hub, l: seq<Id>, before: Sessions, after: Sessions)
    requires Distinct(l)
    requires forall id :: id in l ==> id in g.sessions && id in before && id in after
    requires forall id :: id in l ==> g.sessions[id] == before[id] && after[id].sessionId == id
    ensures GuiApplyAll(g, Updates(l, before, after)) ==
      Hub(map id | id in g.sessions :: if id in l then after[id] else g.sessions[id], g.order)
    decreases |l|
  {
    if l != [] {
      var id := l[0];
      var rest := l[1..];
      assert l == [id] + rest;
      assert Distinct(rest) && id !in rest by {
        assert forall k :: 0 <= k < |rest| ==> rest[k] == l[k + 1];
      }
      var g' := if before[id] != after[id] then GuiStore(g, after[id]) else g;
      GuiAppliesUpdates(g', rest, before, after);
      assert Updates(l, before, after)[..] ==
        (if before[id] != after[id] then [SessionUpdated(after[id])] else []) + Updates(rest, before, after);
    }
  }

  lemma {:induction false} CliAppliesUpdates(c: Sessions, l: seq<Id>, before: Sessions, after: Sessions)
    requires Distinct(l)
    requires forall id :: id in l ==> id in c && id in before && id in after
    requires forall id :: id in l ==> c[id] == before[id] && after[id].sessionId == id
    ensures CliApplyAll(c, Updates(l, before, after)) == map id | id in c :: if id in l then after[id] else c[id]
    decreases |l|
  {
    if l != [] {
      var id := l[0];
      var rest := l[1..];
      assert l == [id] + rest;
      assert Distinct(rest) && id !in rest by {
        assert forall k :: 0 <= k < |rest| ==> rest[k] == l[k + 1];
      }
      var c' := if before[id] != after[id] then c[id := after[id]] else c;
      CliAppliesUpdates(c', rest, before, after);
    }
  }

  /** A flag command's updates carry a copy of the Hub from `before` to `after`. */
  lemma FacesFollowUpdates(h: Hub, after: Sessions)
    requires Valid(h) && Valid(Hub(after, h.order))
    ensures GuiApplyAll(h, Updates(h.order, h.sessions, after)) == Hub(after, h.order)
    ensures CliApplyAll(h.sessions, Updates(h.order, h.sessions, after)) == after
  {
    hide Rolled, Updates, GuiApplyAll, CliApplyAll;
    GuiAppliesUpdates(h, h.order, h.sessions, after);
    CliAppliesUpdates(h.sessions, h.order, h.sessions, after);
    assert h.sessions.Keys == after.Keys;
  }

  lemma FacesFollowRemoval(h: Hub, id: Id)
    requires Valid(h) && id in h.sessions
    ensures var out := Step(h, RemoveSession(id));
      && GuiApplyAll(h, out.events) == out.hub
      && CliApplyAll(h.sessions, out.events) == out.hub.sessions
  {
    hide Rolled, Reconciled, Updates, Without, GuiApplyAll, CliApplyAll;
    var m := h.sessions;
    var out := Step(h, RemoveSession(id));
    StepKeepsValid(h, RemoveSession(id));
    WithoutMeaning(h.order, id);
    var after, order := out.hub.sessions, out.hub.order;
    var removed := Hub(m - {id}, order);
    var e := Event.SessionRemoved(id);
    GuiApplyAllConcat(h, [e], Updates(order, m, after));
    CliApplyAllConcat(m, [e], Updates(order, m, after));
    GuiApplyOne(h, e);
    CliApplyOne(m, e);
    GuiAppliesUpdates(removed, order, m, after);
    CliAppliesUpdates(m - {id}, order, m, after);
    assert removed.sessions.Keys == after.Keys;
  }

  predicate IsRunEventOf(e: Event, id: Id) {
    (e.RunAdded? || e.RunUpdated? || e.RunRemoved?) && e.ownerId == id
  }

  lemma RunEventTouchesOne(g: Hub, e: Event, id: Id) returns (s: Session, t: Session)
    requires IsRunEventOf(e, id) && id in g.sessions
    ensures GuiApply(g, e) == Hub(g.sessions[id := s], g.order)
    ensures CliApply(g.sessions, e) == g.sessions[id := t]
  {
    s := GuiApply(g, e).sessions[id];
    t := CliApply(g.sessions, e)[id];
  }

  /** A run event followed by the settled session leaves exactly the settled session. */
  lemma FacesFollowSettled(h: Hub, id: Id, e: Event, settled: Session)
    requires id in h.sessions && settled.sessionId == id && IsRunEventOf(e, id)
    ensures GuiApplyAll(h, [e, SessionUpdated(settled)]) == Hub(h.sessions[id := settled], h.order)
    ensures CliApplyAll(h.sessions, [e, SessionUpdated(settled)]) == h.sessions[id := settled]
  {
    hide GuiApplyAll, CliApplyAll, GuiRolled, PutRun, DropRun;
    var m := h.sessions;
    var s, t := RunEventTouchesOne(h, e, id);
    GuiApplyTwo(h, e, SessionUpdated(settled));
    CliApplyTwo(m, e, SessionUpdated(settled));
    assert m[id := s][id := settled] == m[id := settled];
    assert m[id := t][id := settled] == m[id := settled];
  }

  /** Folding the events of one operation into a copy of the Hub yields the Hub
      after it: sessions and order alike. */
  lemma FacesFollowStep(h: Hub, op: Op)
    requires Valid(h)
    ensures GuiApplyAll(h, Step(h, op).events) == Step(h, op).hub
    ensures CliApplyAll(h.sessions, Step(h, op).events) == Step(h, op).hub.sessions
  {
    var out := Step(h, op);
    match op
    case UpsertSession(s) =>
      GuiApplyOne(h, out.events[0]);
      CliApplyOne(h.sessions, out.events[0]);
    case UpsertRun(id, run) =>
      if id in h.sessions { FacesFollowSettled(h, id, out.events[0], out.hub.sessions[id]); }
    case RemoveRun(id, runId) =>
      if out.events != [] { FacesFollowSettled(h, id, out.events[0], out.hub.sessions[id]); }
    case Focus(id) =>
      if out.events != [] {
        GuiApplyOne(h, out.events[0]);
        CliApplyOne(h.sessions, out.events[0]);
      }
    case RemoveSession(id) => if id in h.sessions { FacesFollowRemoval(h, id); }
    case _ =>
      StepKeepsValid(h, op);
      FacesFollowUpdates(h, out.hub.sessions);
  }

  lemma GuiApplyNone(g: Hub)
    ensures GuiApplyAll(g, []) == g
  {
  }

  lemma GuiApplyOne(g: Hub, e: Event)
    ensures GuiApplyAll(g, [e]) == GuiApply(g, e)
  {
  }

  lemma GuiApplyTwo(g: Hub, e: Event, f: Event)
    ensures GuiApplyAll(g, [e, f]) == GuiApply(GuiApply(g, e), f)
  {
    assert [e, f][1..] == [f];
    GuiApplyOne(GuiApply(g, e), f);
  }

  lemma CliApplyOne(c: Sessions, e: Event)
    ensures CliApplyAll(c, [e]) == CliApply(c, e)
  {
  }

  lemma CliApplyTwo(c: Sessions, e: Event, f: Event)
    ensures CliApplyAll(c, [e, f]) == CliApply(CliApply(c, e), f)
  {
    assert [e, f][1..] == [f];
    CliApplyOne(CliApply(c, e), f);
  }

  // --------------------------------------------------- replication, per run

  /** Everything the Hub broadcasts while running `ops` from `h`. */
  function Broadcasts(h: Hub, ops: seq<Op>): seq<Event> {
    if ops == [] then []
    else Broadcasts(h, ops[..|ops| - 1]) + Step(AfterFrom(h, ops[..|ops| - 1]), ops[|ops| - 1]).events
  }

  lemma {:induction false} FacesFollowRun(h: Hub, ops: seq<Op>)
    requires Valid(h)
    ensures GuiApplyAll(h, Broadcasts(h, ops)) == AfterFrom(h, ops)
    ensures CliApplyAll(h.sessions, Broadcasts(h, ops)) == AfterFrom(h, ops).sessions
  {
    if ops != [] {
      var n := |ops| - 1;
      var mid := AfterFrom(h, ops[..n]);
      FacesFollowRun(h, ops[..n]);
      RunKeepsValid(h, ops[..n]);
      GuiApplyAllConcat(h, Broadcasts(h, ops[..n]), Step(mid, ops[n]).events);
      CliApplyAllConcat(h.sessions, Broadcasts(h, ops[..n]), Step(mid, ops[n]).events);
      FacesFollowStep(mid, ops[n]);
    }
  }

  lemma {:induction false} GuiStoresPrefix(h: Hub, n: nat)
    requires LockStep(h.sessions, h.order) && n <= |h.order|
    ensures GuiStoreAll(EmptyHub, SnapshotOf(h)[..n]) == RestoredFrom(SnapshotOf(h)[..n])
    ensures CliStoreAll(map[], SnapshotOf(h)[..n]) == RestoredFrom(SnapshotOf(h)[..n]).sessions
  {
    if n > 0 {
      var list := SnapshotOf(h)[..n];
      assert list[..n - 1] == SnapshotOf(h)[..n - 1];
      GuiStoresPrefix(h, n - 1);
      RestoredFromPrefix(h, n - 1);
      assert list[n - 1] == h.sessions[h.order[n - 1]];
      assert forall k :: 0 <= k < n - 1 ==> h.order[..n - 1][k] == h.order[k];
      assert h.order[n - 1] !in h.order[..n - 1];
    }
  }

  /** A snapshot brings any face, whatever it held before, to the Hub's state. */
  lemma SnapshotSynchronizes(h: Hub, g: Hub, c: Sessions)
    requires Valid(h)
    ensures GuiApply(g, Snapshot(SnapshotOf(h))) == h
    ensures CliApply(c, Snapshot(SnapshotOf(h))) == h.sessions
  {
    GuiStoresPrefix(h, |h.order|);
    assert SnapshotOf(h)[..|h.order|] == SnapshotOf(h);
    RestoreUndoes(h, Mute(Id("")));
  }

  lemma {:induction false} AfterFromSplits(h: Hub, a: seq<Op>, b: seq<Op>)
    ensures AfterFrom(h, a + b) == AfterFrom(AfterFrom(h, a), b)
  {
    if b == [] {
      assert a + b == a;
    } else {
      var n := |b| - 1;
      assert (a + b)[..|a + b| - 1] == a + b[..n];
      AfterFromSplits(h, a, b[..n]);
    }
  }

  /** What a face receives: the snapshot of the moment it joined, then every later
      broadcast. */
  function Stream(joined: seq<Op>, later: seq<Op>): seq<Event>
    requires Valid(After(joined))
  {
    [Snapshot(SnapshotOf(After(joined)))] + Broadcasts(After(joined), later)
  }

  /** Replication over whole runs. Whenever a face joins and whatever it held, after
      its stream it holds exactly the Hub's sessions and order, so any two faces agree. */
  lemma FacesReplicate(joined: seq<Op>, later: seq<Op>, g: Hub, c: Sessions)
    ensures Valid(After(joined))
    ensures GuiApplyAll(g, Stream(joined, later)) == After(joined + later)
    ensures CliApplyAll(c, Stream(joined, later)) == After(joined + later).sessions
  {
    RunKeepsValid(EmptyHub, joined);
    var h := After(joined);
    SnapshotSynchronizes(h, g, c);
    GuiApplyAllConcat(g, [Snapshot(SnapshotOf(h))], Broadcasts(h, later));
    CliApplyAllConcat(c, [Snapshot(SnapshotOf(h))], Broadcasts(h, later));
    GuiApplyOne(g, Snapshot(SnapshotOf(h)));
    CliApplyOne(c, Snapshot(SnapshotOf(h)));
    FacesFollowRun(h, later);
    AfterFromSplits(EmptyHub, joined, later);
  }

  /** What was broadcast first was broadcast all the same. */
  lemma {:induction false} BroadcastsPrefix(h: Hub, ops: seq<Op>, k: nat)
    requires k <= |ops|
    ensures Broadcasts(h, ops[..k]) <= Broadcasts(h, ops)
  {
    hide Step, AfterFrom;
    if k == |ops| {
      assert ops[..k] == ops;
    } else {
      var n := |ops| - 1;
      assert ops[..n][..k] == ops[..k];
      BroadcastsPrefix(h, ops[..n], k);
    }
  }

  lemma HeldStoreChangesNothing(g: Hub, s: Session)
    requires s.sessionId in g.sessions && g.sessions[s.sessionId] == s
    ensures GuiStore(g, s) == g
    ensures g.sessions[s.sessionId := s] == g.sessions
  {
  }

  lemma {:induction false} HeldUpdatesChangeNothing(g: Hub, l: seq<Id>, before: Sessions, after: Sessions)
    requires forall id :: id in l ==> id in g.sessions && id in after
    requires forall id :: id in l ==> g.sessions[id] == after[id] && after[id].sessionId == id
    ensures GuiApplyAll(g, Updates(l, before, after)) == g
    decreases |l|
  {
    if l != [] {
      assert l == [l[0]] + l[1..];
      HeldStoreChangesNothing(g, after[l[0]]);
      HeldUpdatesChangeNothing(g, l[1..], before, after);
    }
  }

  lemma RedeliveredRemoval(h: Hub, id: Id)
    requires Valid(h) && id in h.sessions
    ensures var out := Step(h, RemoveSession(id)); GuiApplyAll(out.hub, out.events) == out.hub
  {
    var out := Step(h, RemoveSession(id));
    StepKeepsValid(h, RemoveSession(id));
    var now, e := out.hub, Event.SessionRemoved(id);
    GuiApplyAllConcat(now, [e], Updates(now.order, h.sessions, now.sessions));
    GuiApplyOne(now, e);
    HeldUpdatesChangeNothing(now, now.order, h.sessions, now.sessions);
  }

  lemma RedeliveredSettled(now: Hub, id: Id, e: Event)
    requires id in now.sessions && now.sessions[id].sessionId == id && IsRunEventOf(e, id)
    ensures GuiApplyAll(now, [e, SessionUpdated(now.sessions[id])]) == now
  {
    FacesFollowSettled(now, id, e, now.sessions[id]);
    HeldStoreChangesNothing(now, now.sessions[id]);
  }

  /** Receiving the events of the operation a snapshot already reflects is harmless for
      the GUI, row order included, and for the CLI. */
  lemma RedeliveryIsIdempotent(h: Hub, op: Op)
    requires Valid(h)
    ensures GuiApplyAll(Step(h, op).hub, Step(h, op).events) == Step(h, op).hub
    ensures CliApplyAll(Step(h, op).hub.sessions, Step(h, op).events) == Step(h, op).hub.sessions
  {
    GuiRedelivery(h, op);
    hide Step, CliApplyAll;
    BroadcastsOne(h, op);
    RedeliveredRunIsIdempotent(h, [op]);
  }

  lemma BroadcastsOne(h: Hub, op: Op)
    ensures Broadcasts(h, [op]) == Step(h, op).events && AfterFrom(h, [op]) == Step(h, op).hub
  {
    hide Step;
    assert [op][..0] == [];
  }

  lemma GuiRedelivery(h: Hub, op: Op)
    requires Valid(h)
    ensures GuiApplyAll(Step(h, op).hub, Step(h, op).events) == Step(h, op).hub
  {
    hide Rolled, Settle, Reconciled, Edited, Updates, GuiApplyAll;
    var out := Step(h, op);
    var now := out.hub;
    StepKeepsValid(h, op);
    GuiApplyNone(now);
    if IsFlagOp(op) {
      HeldUpdatesChangeNothing(now, now.order, h.sessions, now.sessions);
    } else if op.RemoveSession? {
      if op.sessionId in h.sessions { RedeliveredRemoval(h, op.sessionId); }
    } else if op.UpsertRun? || op.RemoveRun? {
      if out.events != [] { RedeliveredSettled(now, op.ownerId, out.events[0]); }
    } else if out.events != [] {
      var id := if op.Focus? then op.sessionId else op.session.sessionId;
      assert id in now.sessions && now.sessions[id].sessionId == id;
      GuiApplyOne(now, out.events[0]);
      HeldStoreChangesNothing(now, out.events[0].session);
    }
  }

  // -------------------------------------------- redelivering a whole stretch

  /** The event says everything about the session. */
  predicate States(e: Event, id: Id) {
    match e
    case SessionAdded(s) => s.sessionId == id
    case SessionUpdated(s) => s.sessionId == id
    case SessionRemoved(i) => i == id
    case _ => false
  }

  predicate Mentions(e: Event, id: Id) { States(e, id) || IsRunEventOf(e, id) }

  ghost predicate SameAt(a: Sessions, b: Sessions, id: Id) {
    (id in a <==> id in b) && (id in a ==> a[id] == b[id])
  }

  /** Two maps that agree on a session, or that hear everything about it, agree on it
      afterwards. */
  lemma {:induction false} AgreeAfterwards(a: Sessions, b: Sessions, events: seq<Event>, id: Id)
    requires SameAt(a, b, id) || exists k :: 0 <= k < |events| && States(events[k], id)
    ensures SameAt(CliApplyAll(a, events), CliApplyAll(b, events), id)
    decreases |events|
  {
    hide CliApply, SameAt, States;
    if events != [] {
      if SameAt(a, b, id) || States(events[0], id) {
        CliStep(a, b, events[0], id);
      } else {
        var k :| 0 <= k < |events| && States(events[k], id);
        assert States(events[1..][k - 1], id);
      }
      AgreeAfterwards(CliApply(a, events[0]), CliApply(b, events[0]), events[1..], id);
    }
  }

  lemma CliStep(a: Sessions, b: Sessions, e: Event, id: Id)
    requires SameAt(a, b, id) || States(e, id)
    ensures SameAt(CliApply(a, e), CliApply(b, e), id)
  {
    hide Rolled, PutRun, DropRun;
  }

  lemma {:induction false} UnmentionedStays(c: Sessions, events: seq<Event>, id: Id)
    requires forall k :: 0 <= k < |events| ==> !events[k].Snapshot? && !Mentions(events[k], id)
    ensures SameAt(CliApplyAll(c, events), c, id)
    decreases |events|
  {
    hide Rolled, PutRun, DropRun;
    if events != [] {
      var c' := CliApply(c, events[0]);
      assert SameAt(c', c, id);
      hide CliApply;
      UnmentionedStays(c', events[1..], id);
    }
  }

  lemma {:induction false} UpdatesAreUpdates(l: seq<Id>, before: Sessions, after: Sessions)
    ensures forall k :: 0 <= k < |Updates(l, before, after)| ==> Updates(l, before, after)[k].SessionUpdated?
  {
    if l != [] { UpdatesAreUpdates(l[1..], before, after); }
  }

  /** Never a snapshot, and whoever is mentioned is stated in full. */
  ghost predicate StatesWhoItMentions(events: seq<Event>, id: Id) {
    && (forall k :: 0 <= k < |events| ==> !events[k].Snapshot?)
    && ((exists k :: 0 <= k < |events| && Mentions(events[k], id)) ==>
        exists k :: 0 <= k < |events| && States(events[k], id))
  }

  lemma StepStates(h: Hub, op: Op, id: Id)
    requires Valid(h)
    ensures StatesWhoItMentions(Step(h, op).events, id)
  {
    hide Rolled, Reconciled, Edited, Updates, Without, PutRun, DropRun, HasRun;
    var out := Step(h, op);
    StepKeepsValid(h, op);
    UpdatesAreUpdates(out.hub.order, h.sessions, out.hub.sessions);
    if (op.UpsertRun? || op.RemoveRun?) && out.events != [] {
      var settled := out.events[1].session;
      assert op.ownerId in out.hub.sessions && out.hub.sessions[op.ownerId] == settled;
      assert States(out.events[1], op.ownerId);
    }
  }

  lemma StatesConcat(a: seq<Event>, b: seq<Event>, id: Id)
    requires StatesWhoItMentions(a, id) && StatesWhoItMentions(b, id)
    ensures StatesWhoItMentions(a + b, id)
  {
    hide States, Mentions;
    var all := a + b;
    if k :| 0 <= k < |a| && States(a[k], id) { assert States(all[k], id); }
    if k :| 0 <= k < |b| && States(b[k], id) { assert States(all[|a| + k], id); }
    if k :| 0 <= k < |all| && Mentions(all[k], id) {
      if k < |a| { assert Mentions(a[k], id); } else { assert Mentions(b[k - |a|], id); }
    }
  }

  lemma {:induction false} BroadcastsState(h: Hub, ops: seq<Op>, id: Id)
    requires Valid(h)
    ensures StatesWhoItMentions(Broadcasts(h, ops), id)
  {
    hide Step, StatesWhoItMentions, Valid, AfterFrom;
    if ops == [] {
      NothingStates(id);
    } else {
      var n := |ops| - 1;
      BroadcastsState(h, ops[..n], id);
      RunKeepsValid(h, ops[..n]);
      StepStates(AfterFrom(h, ops[..n]), ops[n], id);
      StatesConcat(Broadcasts(h, ops[..n]), Step(AfterFrom(h, ops[..n]), ops[n]).events, id);
    }
  }

  lemma NothingStates(id: Id)
    ensures StatesWhoItMentions([], id)
  {
  }

  /** However many operations a snapshot already reflects: hearing all their events
      again leaves the sessions as they are. */
  lemma RedeliveredRunIsIdempotent(h: Hub, ops: seq<Op>)
    requires Valid(h)
    ensures CliApplyAll(AfterFrom(h, ops).sessions, Broadcasts(h, ops)) == AfterFrom(h, ops).sessions
  {
    hide CliApplyAll, AfterFrom, Broadcasts, Valid, Mentions, States;
    var events, now := Broadcasts(h, ops), AfterFrom(h, ops).sessions;
    var again := CliApplyAll(now, events);
    FacesFollowRun(h, ops);
    forall id ensures SameAt(again, now, id) {
      BroadcastsState(h, ops, id);
      if exists k :: 0 <= k < |events| && Mentions(events[k], id) {
        AgreeAfterwards(now, h.sessions, events, id);
      } else {
        UnmentionedStays(now, events, id);
      }
    }
    assert forall id :: id in again <==> id in now by {
      forall id ensures id in again <==> id in now { assert SameAt(again, now, id); }
    }
    forall id | id in again ensures again[id] == now[id] { assert SameAt(again, now, id); }
  }

  // ------------------------------------------ GUI and CLI on any event stream

  /** The two reducers may differ only in the rollup state of an empty session. */
  ghost predicate AgreeButEmptyRollup(g: Sessions, c: Sessions) {
    && g.Keys == c.Keys
    && (forall id :: id in g ==> c[id] == g[id].(rollupState := c[id].rollupState))
    && (forall id :: id in g && g[id].runs != [] ==> c[id] == g[id])
  }

  lemma GuiCliAgreeOnEvent(g: Hub, c: Sessions, e: Event)
    requires AgreeButEmptyRollup(g.sessions, c)
    ensures AgreeButEmptyRollup(GuiApply(g, e).sessions, CliApply(c, e))
  {
    hide PutRun, DropRun, Without, RollupUrgency, NormalizedUrgency, GuiStoreAll, CliStoreAll;
    if e.Snapshot? {
      GuiCliStoreAlike(EmptyHub, map[], e.sessions);
    }
  }

  lemma {:induction false} GuiCliStoreAlike(g: Hub, c: Sessions, list: seq<Session>)
    requires g.sessions == c
    ensures GuiStoreAll(g, list).sessions == CliStoreAll(c, list)
  {
    if list != [] {
      GuiCliStoreAlike(g, c, list[..|list| - 1]);
    }
  }

  /** On arbitrary event streams, not only the Hub's own. */
  lemma {:induction false} GuiCliAgree(g: Hub, c: Sessions, events: seq<Event>)
    requires AgreeButEmptyRollup(g.sessions, c)
    ensures AgreeButEmptyRollup(GuiApplyAll(g, events).sessions, CliApplyAll(c, events))
    decreases |events|
  {
    if events != [] {
      GuiCliAgreeOnEvent(g, c, events[0]);
      GuiCliAgree(GuiApply(g, events[0]), CliApply(c, events[0]), events[1..]);
    }
  }

  /** The one permitted difference is real: after `run.removed` empties a waiting
      session, and before the paired `session.updated`, the GUI still shows waiting. */
  lemma EmptiedSessionShowsStaleRollup(g: Hub, c: Sessions, id: Id, runId: Id)
    requires g.sessions == c && id in c && c[id].rollupState != Idle
    requires DropRun(c[id].runs, runId) == []
    ensures GuiApply(g, RunRemoved(id, runId)).sessions[id].rollupState == c[id].rollupState
    ensures CliApply(c, RunRemoved(id, runId))[id].rollupState == Idle
  {
  }

  /** The GUI's order and map stay in lock-step on arbitrary event streams. */
  lemma {:induction false} GuiStaysLockStep(g: Hub, events: seq<Event>)
    requires LockStep(g.sessions, g.order)
    ensures LockStep(GuiApplyAll(g, events).sessions, GuiApplyAll(g, events).order)
    decreases |events|
  {
    if events != [] {
      GuiApplyLockStep(g, events[0]);
      GuiStaysLockStep(GuiApply(g, events[0]), events[1..]);
    }
  }

  lemma GuiApplyLockStep(g: Hub, e: Event)
    requires LockStep(g.sessions, g.order)
    ensures LockStep(GuiApply(g, e).sessions, GuiApply(g, e).order)
  {
    match e
    case Snapshot(list) => GuiStoreAllLockStep(list);
    case SessionRemoved(id) => WithoutMeaning(g.order, id);
    case _ =>
  }

  lemma {:induction false} GuiStoreAllLockStep(list: seq<Session>)
    ensures var g := GuiStoreAll(EmptyHub, list); LockStep(g.sessions, g.order)
  {
    if list != [] {
      GuiStoreAllLockStep(list[..|list| - 1]);
    }
  }
}
