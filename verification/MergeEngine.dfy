/** The Hub's merge engine: the imperative code behind `MergeSpec.Step`. Every
    method is proved to be exactly one step of that function. */
module MergeEngine {
  import opened Protocol
  import opened MergeSpec

  function NotifyMapOf(m: Sessions): map<Id, bool> {
    map id | id in m :: Notifies(m, id)
  }

  /** Rearming against a recorded notify map; an unrecorded id counts as silent. */
  function RearmedFrom(notify: map<Id, bool>, edited: Sessions): Sessions {
    map id | id in edited :: Rearm(edited[id], id in notify && notify[id], Notifies(edited, id))
  }

  class Engine {
    var sessions: Sessions
    /** Insertion order of session ids, for deterministic snapshots. */
    var order: seq<Id>

    ghost function Hub(): Hub reads this { MergeSpec.Hub(sessions, order) }

    ghost predicate Ok() reads this { Valid(Hub()) }

    constructor ()
      ensures Ok() && Hub() == EmptyHub
    {
      sessions, order := map[], [];
    }

    method Snapshot() returns (list: seq<Session>)
      requires Ok()
      ensures list == SnapshotOf(Hub())
    {
      list := [];
      for i := 0 to |order|
        invariant list == SnapshotOf(Hub())[..i]
      {
        list := list + [sessions[order[i]]];
      }
    }

    /** Replace the whole state by `list`, verbatim. */
    method Restore(list: seq<Session>)
      modifies this
      ensures Hub() == RestoredFrom(list)
    {
      sessions, order := map[], [];
      for i := 0 to |list|
        invariant Hub() == RestoredFrom(list[..i])
      {
        assert list[..i + 1][..i] == list[..i];
        order := order + [list[i].sessionId];
        sessions := sessions[list[i].sessionId := list[i]];
      }
      assert list[..|list|] == list;
    }

    method NotifyMap() returns (notify: map<Id, bool>)
      ensures notify == NotifyMapOf(sessions)
    {
      var any := AnySoloed(sessions);
      notify := map id | id in sessions :: ShouldNotify(sessions[id], any);
    }

    /** Apply one notify transition to one session; says whether it changed. */
    method ReconcileOneUnread(id: Id, was: bool, anySoloed: bool) returns (changed: bool)
      requires id in sessions
      modifies this`sessions
      ensures sessions == old(sessions)[id := Rearm(old(sessions[id]), was, ShouldNotify(old(sessions[id]), anySoloed))]
      ensures changed <==> sessions[id] != old(sessions[id])
    {
      var s := sessions[id];
      var now := ShouldNotify(s, anySoloed);
      if !was && now && !s.unread {
        sessions := sessions[id := s.(unread := true)];
        changed := true;
      } else if was && !now && s.unread {
        sessions := sessions[id := s.(unread := false)];
        changed := true;
      } else {
        changed := false;
      }
    }

    /** Rearm every held session for its edge since `notify` was taken. */
    method ReconcileUnreadFrom(notify: map<Id, bool>) returns (changed: set<Id>)
      requires LockStep(sessions, order)
      modifies this`sessions
      ensures sessions == RearmedFrom(notify, old(sessions))
      ensures Differs(changed, old(sessions), sessions)
    {
      var any := AnySoloed(sessions);
      ghost var edited, target := sessions, RearmedFrom(notify, sessions);
      changed := {};
      for i := 0 to |order|
        invariant Reached(sessions, edited, target, order, i)
        invariant Differs(changed, edited, sessions)
      {
        var id := order[i];
        ghost var m := sessions;
        var flipped := ReconcileOneUnread(id, id in notify && notify[id], any);
        ReachedNext(m, edited, target, order, i);
        DiffersNext(changed, edited, m, id, sessions[id]);
        if flipped {
          changed := changed + {id};
        }
      }
      ReachedAll(sessions, edited, target, order);
    }

    /** The `session.updated` events of a set of changed ids, in order. */
    method UpdatedEventsFor(changed: set<Id>, ghost before: Sessions) returns (events: seq<Event>)
      requires LockStep(sessions, order)
      requires forall id :: id in sessions ==> (id in changed <==> Changed(id, before, sessions))
      ensures events == Updates(order, before, sessions)
    {
      hide Updates, Changed;
      events := [];
      assert order[0..] == order;
      for i := 0 to |order|
        invariant events + Updates(order[i..], before, sessions) == Updates(order, before, sessions)
      {
        UpdatesUnfold(order, i, before, sessions);
        ghost var rest := Updates(order[i + 1..], before, sessions);
        if order[i] in changed {
          var e := SessionUpdated(sessions[order[i]]);
          assert events + ([e] + rest) == (events + [e]) + rest;
          events := events + [e];
        } else {
          assert [] + rest == rest;
        }
      }
      assert order[|order|..] == [];
      NoUpdates(before, sessions);
    }

    method UpsertSession(incoming: Session) returns (event: Event)
      requires Ok()
      modifies this
      ensures Ok()
      ensures Step(old(Hub()), Op.UpsertSession(incoming)) == Outcome(Hub(), [event])
    {
      ghost var was := Hub();
      var any := AnySoloed(sessions);
      var id := incoming.sessionId;
      var oldNotify := id in sessions && ShouldNotify(sessions[id], any);
      var session := Rolled(incoming);
      session := Rearm(session, oldNotify, ShouldNotify(session, any));
      if id in sessions {
        sessions := sessions[id := session];
        event := SessionUpdated(session);
      } else {
        order := order + [id];
        sessions := sessions[id := session];
        event := SessionAdded(session);
      }
      StepKeepsValid(was, Op.UpsertSession(incoming));
    }

    method RemoveSessionEvents(id: Id) returns (events: seq<Event>)
      requires Ok()
      modifies this
      ensures Ok()
      ensures Step(old(Hub()), Op.RemoveSession(id)) == Outcome(Hub(), events)
    {
      if id !in sessions {
        return [];
      }
      ghost var was := Hub();
      var notify := NotifyMap();
      sessions := sessions - {id};
      WithoutMeaning(order, id);
      order := Without(order, id);
      events := [Event.SessionRemoved(id)];
      ghost var edited := sessions;
      var changed := ReconcileUnreadFrom(notify);
      RearmedFromNotifyMap(notify, was.sessions, edited);
      StepKeepsValid(was, Op.RemoveSession(id));
      var updates := UpdatedEventsFor(changed, was.sessions);
      events := events + updates;
    }

    /** The narrow helper: reconciles as above but reports only the first event. */
    method RemoveSession(id: Id) returns (event: Option<Event>)
      requires Ok()
      modifies this
      ensures Ok() && Hub() == Step(old(Hub()), Op.RemoveSession(id)).hub
      ensures event == if id in old(sessions) then Some(Event.SessionRemoved(id)) else None
    {
      var events := RemoveSessionEvents(id);
      event := if events == [] then None else Some(events[0]);
    }

    method UpsertRun(id: Id, run: AgentRun) returns (events: seq<Event>)
      requires Ok()
      modifies this
      ensures Ok()
      ensures Step(old(Hub()), Op.UpsertRun(id, run)) == Outcome(Hub(), events)
    {
      ghost var was := Hub();
      var any := AnySoloed(sessions);
      if id !in sessions {
        return [];
      }
      var session := sessions[id];
      var oldNotify := ShouldNotify(session, any);
      var runEvent := if HasRun(session.runs, run.runId) then RunUpdated(id, run) else RunAdded(id, run);
      session := Rolled(session.(runs := PutRun(session.runs, run)));
      session := Rearm(session, oldNotify, ShouldNotify(session, any));
      sessions := sessions[id := session];
      events := [runEvent, SessionUpdated(session)];
      StepKeepsValid(was, Op.UpsertRun(id, run));
    }

    method RemoveRun(id: Id, runId: Id) returns (events: seq<Event>)
      requires Ok()
      modifies this
      ensures Ok()
      ensures Step(old(Hub()), Op.RemoveRun(id, runId)) == Outcome(Hub(), events)
    {
      ghost var was := Hub();
      var any := AnySoloed(sessions);
      if id !in sessions {
        return [];
      }
      var session := sessions[id];
      var oldNotify := ShouldNotify(session, any);
      var kept := DropRun(session.runs, runId);
      DropRunShrinks(session.runs, runId);
      if |kept| == |session.runs| {
        return [];
      }
      session := Rolled(session.(runs := kept));
      session := Rearm(session, oldNotify, ShouldNotify(session, any));
      sessions := sessions[id := session];
      events := [RunRemoved(id, runId), SessionUpdated(session)];
      StepKeepsValid(was, Op.RemoveRun(id, runId));
    }

    /** The common tail of the flag commands: rearm, then report what changed. */
    method FinishFlagChange(notify: map<Id, bool>, touched: set<Id>, ghost was: MergeSpec.Hub, ghost op: Op)
        returns (events: seq<Event>)
      requires IsFlagOp(op) && Valid(was) && order == was.order && sessions == Edited(was.sessions, op)
      requires notify == NotifyMapOf(was.sessions)
      requires Differs(touched, was.sessions, sessions)
      modifies this
      ensures Ok()
      ensures Step(was, op) == Outcome(Hub(), events)
    {
      hide Rolled, Edited, Reconciled, RearmedFrom, NotifyMapOf, Updates, Differs, Changed, AnySoloed, Settle;
      ghost var edited := sessions;
      EditedKeepsValid(was, op);
      var flipped := ReconcileUnreadFrom(notify);
      RearmedFromNotifyMap(notify, was.sessions, edited);
      StepKeepsValid(was, op);
      TouchedOrFlipped(was.sessions, op, touched, flipped);
      events := UpdatedEventsFor(touched + flipped, was.sessions);
    }

    method ApplyMute(id: Id) returns (events: seq<Event>)
      requires Ok()
      modifies this
      ensures Ok()
      ensures Step(old(Hub()), Mute(id)) == Outcome(Hub(), events)
    {
      hide Step, Rolled, NotifyMapOf;
      ghost var was := Hub();
      var notify := NotifyMap();
      if id !in sessions || (sessions[id].muted && !sessions[id].soloed) {
        assert Edited(sessions, Mute(id)) == sessions;
        FlagStepSettled(was, Mute(id));
        return [];
      }
      sessions := sessions[id := sessions[id].(muted := true, soloed := false)];
      events := FinishFlagChange(notify, {id}, was, Mute(id));
    }

    method ApplyUnmute(id: Id) returns (events: seq<Event>)
      requires Ok()
      modifies this
      ensures Ok()
      ensures Step(old(Hub()), Unmute(id)) == Outcome(Hub(), events)
    {
      hide Step, Rolled, NotifyMapOf;
      ghost var was := Hub();
      var notify := NotifyMap();
      if id !in sessions || (!sessions[id].muted && !sessions[id].soloed) {
        assert Edited(sessions, Unmute(id)) == sessions;
        FlagStepSettled(was, Unmute(id));
        return [];
      }
      sessions := sessions[id := sessions[id].(muted := false, soloed := false)];
      events := FinishFlagChange(notify, {id}, was, Unmute(id));
    }

    method ApplySolo(id: Id) returns (events: seq<Event>)
      requires Ok()
      modifies this
      ensures Ok()
      ensures Step(old(Hub()), Solo(id)) == Outcome(Hub(), events)
    {
      hide Step, Rolled, NotifyMapOf, Differs;
      ghost var was := Hub();
      if id !in sessions {
        FlagStepSettled(was, Solo(id));
        return [];
      }
      var notify := NotifyMap();
      var changed := ClearOtherSolos(id);
      if !sessions[id].soloed || sessions[id].muted {
        DiffersNext(changed, was.sessions, sessions, id, sessions[id].(soloed := true, muted := false));
        sessions := sessions[id := sessions[id].(soloed := true, muted := false)];
        changed := changed + {id};
      }
      events := FinishFlagChange(notify, changed, was, Solo(id));
    }

    /** First pass of a solo: clear the flag on every other session. */
    method ClearOtherSolos(keep: Id) returns (changed: set<Id>)
      requires LockStep(sessions, order) && keep in sessions
      modifies this`sessions
      ensures sessions == map k | k in old(sessions) ::
        if k == keep then old(sessions)[k] else old(sessions)[k].(soloed := false)
      ensures Differs(changed, old(sessions), sessions)
    {
      ghost var was := sessions;
      ghost var target := map k | k in was :: if k == keep then was[k] else was[k].(soloed := false);
      changed := {};
      for i := 0 to |order|
        invariant Reached(sessions, was, target, order, i)
        invariant Differs(changed, was, sessions)
      {
        var id := order[i];
        DiffersNext(changed, was, sessions, id, target[id]);
        ReachedNext(sessions, was, target, order, i);
        if id != keep && sessions[id].soloed {
          sessions := sessions[id := sessions[id].(soloed := false)];
          changed := changed + {id};
        } else {
          assert sessions == sessions[id := target[id]];
        }
      }
      ReachedAll(sessions, was, target, order);
    }

    method ApplyFocus(id: Id) returns (event: Option<Event>)
      requires Ok()
      modifies this
      ensures Ok()
      ensures Step(old(Hub()), Focus(id)) == Outcome(Hub(), if event.Some? then [event.value] else [])
    {
      ghost var was := Hub();
      if id !in sessions || !sessions[id].unread {
        return None;
      }
      sessions := sessions[id := sessions[id].(unread := false)];
      event := Some(SessionUpdated(sessions[id]));
      StepKeepsValid(was, Focus(id));
    }
  }

  lemma RearmedFromNotifyMap(notify: map<Id, bool>, before: Sessions, edited: Sessions)
    requires notify == NotifyMapOf(before)
    ensures RearmedFrom(notify, edited) == Reconciled(before, edited)
  {
  }

  /** `changed` is the set of ids that two versions of a map store differently. */
  ghost predicate Differs(changed: set<Id>, before: Sessions, after: Sessions) {
    && before.Keys == after.Keys
    && forall id :: id in changed <==> id in before && before[id] != after[id]
  }

  lemma DiffersNext(changed: set<Id>, before: Sessions, m: Sessions, id: Id, s: Session)
    requires Differs(changed, before, m) && id in m && m[id] == before[id]
    ensures s == before[id] ==> Differs(changed, before, m[id := s])
    ensures s != before[id] ==> Differs(changed + {id}, before, m[id := s])
  {
  }

  /** A loop over `order` has rewritten the first `i` sessions from `edited` to `target`. */
  ghost predicate Reached(m: Sessions, edited: Sessions, target: Sessions, order: seq<Id>, i: nat) {
    && i <= |order|
    && m.Keys == edited.Keys == target.Keys
    && (forall j :: 0 <= j < |order| ==>
          order[j] in m && m[order[j]] == if j < i then target[order[j]] else edited[order[j]])
  }

  lemma ReachedNext(m: Sessions, edited: Sessions, target: Sessions, order: seq<Id>, i: nat)
    requires Distinct(order) && i < |order| && Reached(m, edited, target, order, i)
    ensures Reached(m[order[i] := target[order[i]]], edited, target, order, i + 1)
  {
  }

  lemma ReachedAll(m: Sessions, edited: Sessions, target: Sessions, order: seq<Id>)
    requires Reached(m, edited, target, order, |order|)
    requires forall id :: id in edited ==> id in order
    ensures m == target
  {
    forall id | id in edited ensures m[id] == target[id] {
      var j :| 0 <= j < |order| && order[j] == id;
    }
  }

  /** A flag edit and the rearming never touch the same field, so a session changed
      overall exactly when one of them changed it. */
  lemma TouchedOrFlipped(before: Sessions, op: Op, touched: set<Id>, flipped: set<Id>)
    requires IsFlagOp(op)
    requires Differs(touched, before, Edited(before, op))
    requires Differs(flipped, Edited(before, op), Reconciled(before, Edited(before, op)))
    ensures forall id :: id in before ==>
      (id in touched + flipped <==> Changed(id, before, Reconciled(before, Edited(before, op))))
  {
  }

  lemma NoUpdates(before: Sessions, after: Sessions)
    ensures Updates([], before, after) == []
  {
  }

  lemma UpdatesUnfold(order: seq<Id>, i: nat, before: Sessions, after: Sessions)
    requires i < |order|
    ensures Updates(order[i..], before, after) ==
      (if Changed(order[i], before, after) then [SessionUpdated(after[order[i]])] else [])
      + Updates(order[i + 1..], before, after)
  {
    assert order[i..][1..] == order[i + 1..];
  }

  /** Dropping shortens the list exactly when some run had the id. */
  lemma {:induction false} DropRunShrinks(runs: seq<AgentRun>, runId: Id)
    ensures |DropRun(runs, runId)| <= |runs|
    ensures |DropRun(runs, runId)| == |runs| <==> !HasRun(runs, runId)
    ensures !HasRun(DropRun(runs, runId), runId)
  {
    if runs != [] {
      DropRunShrinks(runs[1..], runId);
      if HasRun(runs[1..], runId) {
        var i :| 0 <= i < |runs[1..]| && runs[1..][i].runId == runId;
        assert runs[i + 1].runId == runId;
      }
      if HasRun(runs, runId) && runs[0].runId != runId {
        var i :| 0 <= i < |runs| && runs[i].runId == runId;
        assert runs[1..][i - 1] == runs[i];
      }
    }
  }
}
