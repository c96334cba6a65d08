/** The durable store: an append-only log beside the live Hub, and how faithfully a
    restart rebuilds the one from the other. */
module Persist {
  import opened Protocol
  import opened MergeSpec
  import opened Attention
  import opened Effects
  import MergeEngine

  /** One persisted mutation. */
  datatype Row =
    | SessionUpsert(session: Session)
    | SessionRemove(sessionId: Id)
    | RunUpsert(ownerId: Id, run: AgentRun)
    | RunRemove(ownerId: Id, runId: Id)

  /** The single mapping from rows to engine operations, live and on replay. */
  function RowOp(row: Row): Op {
    match row
    case SessionUpsert(s) => Op.UpsertSession(s)
    case SessionRemove(id) => Op.RemoveSession(id)
    case RunUpsert(id, run) => Op.UpsertRun(id, run)
    case RunRemove(id, runId) => Op.RemoveRun(id, runId)
  }

  function ReplayFrom(h: Hub, rows: seq<Row>): Hub
    decreases |rows|
  {
    if rows == [] then h else ReplayFrom(Step(h, RowOp(rows[0])).hub, rows[1..])
  }

  /** What a restart rebuilds. */
  function Replay(rows: seq<Row>): Hub { ReplayFrom(EmptyHub, rows) }

  datatype Store = Store(log: seq<Row>, hub: Hub)

  const Fresh := Store([], EmptyHub)

  datatype Result = Result(store: Store, events: seq<Event>, failed: bool)

  /** A held session keeps the Hub's flags whatever the reporter sends. */
  function Preserved(m: Sessions, s: Session): Session {
    if s.sessionId !in m then s
    else
      var held := m[s.sessionId];
      s.(muted := held.muted, soloed := held.soloed, unread := held.unread)
  }

  /** The durable form of a flag command's `session.updated` events. */
  function RowsOf(events: seq<Event>): (rows: seq<Row>)
    ensures |rows| <= |events|
  {
    if events == [] then []
    else (if events[0].SessionUpdated? then [SessionUpsert(events[0].session)] else []) + RowsOf(events[1..])
  }

  lemma RowsOfSuffix(events: seq<Event>, i: nat)
    requires i < |events|
    ensures RowsOf(events[i..]) ==
      (if events[i].SessionUpdated? then [SessionUpsert(events[i].session)] else []) + RowsOf(events[i + 1..])
  {
    assert events[i..][1..] == events[i + 1..];
  }

  function Commit(st: Store, row: Row, room: nat): Result {
    if room == 0 then Result(st, [], true)
    else
      var out := Step(st.hub, RowOp(row));
      Result(Store(st.log + [row], out.hub), out.events, false)
  }

  /** One store operation when the log accepts `room` more rows and then fails. */
  function Apply(st: Store, op: Op, room: nat): Result {
    var m := st.hub.sessions;
    match op
    case UpsertSession(s) => Commit(st, SessionUpsert(Preserved(m, s)), room)
    case RemoveSession(id) => if id !in m then Result(st, [], false) else Commit(st, SessionRemove(id), room)
    case UpsertRun(id, run) => if id !in m then Result(st, [], false) else Commit(st, RunUpsert(id, run), room)
    case RemoveRun(id, runId) =>
      if id !in m || !HasRun(m[id].runs, runId) then Result(st, [], false)
      else Commit(st, RunRemove(id, runId), room)
    case Focus(id) =>
      var out := Step(st.hub, op);
      if out.events == [] then Result(st, [], false)
      else
        var row := SessionUpsert(out.hub.sessions[id]);
        Result(Store(if room == 0 then st.log else st.log + [row], out.hub), out.events, false)
    case _ =>
      var out := Step(st.hub, op);
      var rows := RowsOf(out.events);
      if room < |rows| then Result(Store(st.log + rows[..room], st.hub), [], true)
      else Result(Store(st.log + rows, out.hub), out.events, false)
  }

  // ------------------------------------------------------ the store object

  /** The event log; `room` is how many more rows the disk will take. */
  class EventLog {
    var rows: seq<Row>
    var room: nat

    constructor (room: nat)
      ensures rows == [] && this.room == room
    {
      rows, this.room := [], room;
    }

    /** The sequence number assigned, or none if the append failed. Numbers count from
        one and only grow. */
    method Append(row: Row) returns (number: Option<nat>)
      modifies this
      ensures number == if old(room) > 0 then Some(|rows|) else None
      ensures rows == if number.Some? then old(rows) + [row] else old(rows)
      ensures room == if number.Some? then old(room) - 1 else old(room)
    {
      if room == 0 {
        return None;
      }
      rows := rows + [row];
      room := room - 1;
      number := Some(|rows|);
    }
  }

  class StateStore {
    const log: EventLog
    const engine: MergeEngine.Engine

    ghost function State(): Store reads log, engine { Store(log.rows, engine.Hub()) }

    constructor (log: EventLog, engine: MergeEngine.Engine)
      ensures this.log == log && this.engine == engine
    {
      this.log, this.engine := log, engine;
    }

    /** Append first, project second: a failed append leaves everything alone. */
    method LogAndApply(row: Row) returns (events: seq<Event>, failed: bool)
      requires engine.Ok()
      modifies log, engine
      ensures engine.Ok()
      ensures Result(State(), events, failed) == Commit(old(State()), row, old(log.room))
    {
      var number := log.Append(row);
      if number.None? {
        return [], true;
      }
      failed := false;
      match row {
        case SessionUpsert(session) =>
          var event := engine.UpsertSession(session);
          events := [event];
        case SessionRemove(id) => events := engine.RemoveSessionEvents(id);
        case RunUpsert(id, run) => events := engine.UpsertRun(id, run);
        case RunRemove(id, runId) => events := engine.RemoveRun(id, runId);
      }
    }

    method ApplySessionUpsert(session: Session) returns (events: seq<Event>, failed: bool)
      requires engine.Ok()
      modifies log, engine
      ensures engine.Ok()
      ensures Result(State(), events, failed) == Apply(old(State()), UpsertSession(session), old(log.room))
    {
      events, failed := LogAndApply(SessionUpsert(Preserved(engine.sessions, session)));
    }

    /** The log and engine half; `Reclaim.GatedStore` also drops the session's marks. */
    method ApplySessionRemove(id: Id) returns (events: seq<Event>, failed: bool)
      requires engine.Ok()
      modifies log, engine
      ensures engine.Ok()
      ensures Result(State(), events, failed) == Apply(old(State()), RemoveSession(id), old(log.room))
    {
      if id !in engine.sessions {
        return [], false;
      }
      events, failed := LogAndApply(SessionRemove(id));
    }

    method ApplyRunUpsert(id: Id, run: AgentRun) returns (events: seq<Event>, failed: bool)
      requires engine.Ok()
      modifies log, engine
      ensures engine.Ok()
      ensures Result(State(), events, failed) == Apply(old(State()), UpsertRun(id, run), old(log.room))
    {
      if id !in engine.sessions {
        return [], false;
      }
      events, failed := LogAndApply(RunUpsert(id, run));
    }

    /** The log and engine half; `Reclaim.GatedStore` also drops the run's mark. */
    method ApplyRunRemove(id: Id, runId: Id) returns (events: seq<Event>, failed: bool)
      requires engine.Ok()
      modifies log, engine
      ensures engine.Ok()
      ensures Result(State(), events, failed) == Apply(old(State()), RemoveRun(id, runId), old(log.room))
    {
      if id !in engine.sessions || !HasRun(engine.sessions[id].runs, runId) {
        return [], false;
      }
      events, failed := LogAndApply(RunRemove(id, runId));
    }

    /** Append the session of every update, stopping at the first failure. */
    method AppendSessions(events: seq<Event>) returns (ok: bool)
      modifies log
      ensures ok == (|RowsOf(events)| <= old(log.room))
      ensures log.rows == old(log.rows) + (if ok then RowsOf(events) else RowsOf(events)[..old(log.room)])
    {
      hide RowsOf;
      ghost var rows, log0 := RowsOf(events), log.rows;
      ghost var done := 0;
      for i := 0 to |events|
        invariant done <= |rows| && RowsOf(events[i..]) == rows[done..]
        invariant log.rows == log0 + rows[..done] && log.room + done == old(log.room)
      {
        RowsOfSuffix(events, i);
        if events[i].SessionUpdated? {
          assert rows[done..][0] == rows[done] && rows[done..][1..] == rows[done + 1..];
          var number := log.Append(SessionUpsert(events[i].session));
          if number.None? {
            return false;
          }
          assert rows[..done + 1] == rows[..done] + [rows[done]];
          done := done + 1;
        }
      }
      assert events[|events|..] == [];
      assert rows[..done] == rows;
      ok := true;
    }

    /** Project a flag command, then append every resulting session; on a failed
        append put the captured state back. */
    method ApplyFlagChange(op: Op) returns (events: seq<Event>, failed: bool)
      requires engine.Ok() && IsFlagOp(op)
      modifies log, engine
      ensures engine.Ok()
      ensures Result(State(), events, failed) == Apply(old(State()), op, old(log.room))
    {
      var before := engine.Snapshot();
      RestoreUndoes(engine.Hub(), op);
      match op {
        case Mute(id) => events := engine.ApplyMute(id);
        case Unmute(id) => events := engine.ApplyUnmute(id);
        case Solo(id) => events := engine.ApplySolo(id);
      }
      var ok := AppendSessions(events);
      failed := !ok;
      if failed {
        engine.Restore(before);
        events := [];
      }
    }

    /** Focus acknowledges in memory even when the row cannot be written. */
    method ApplyFocus(id: Id) returns (event: Option<Event>)
      requires engine.Ok()
      modifies log, engine
      ensures engine.Ok()
      ensures Result(State(), if event.Some? then [event.value] else [], false) ==
        Apply(old(State()), Focus(id), old(log.room))
    {
      event := engine.ApplyFocus(id);
      if event.Some? {
        var _ := log.Append(SessionUpsert(engine.sessions[id]));
      }
    }
  }

  // ---------------------------------------------------- restart fidelity

  /** The restored Hub is the live one, except that some unread badges may be lost. */
  ghost predicate Lags(restored: Hub, live: Hub) {
    && restored.order == live.order
    && restored.sessions.Keys == live.sessions.Keys
    && (forall id :: id in live.sessions ==>
          LagsOne(restored.sessions[id], live.sessions[id]))
  }

  predicate LagsOne(r: Session, l: Session) {
    r == l.(unread := r.unread) && (r.unread ==> l.unread)
  }

  lemma LagKeepsNotify(r: Hub, l: Hub)
    requires Lags(r, l)
    ensures AnySoloed(r.sessions) == AnySoloed(l.sessions)
    ensures forall id :: Notifies(r.sessions, id) == Notifies(l.sessions, id)
  {
    SameFlagsSameBit(r.sessions, l.sessions);
  }

  lemma RearmLags(r: Session, l: Session, was: bool, now: bool)
    requires LagsOne(r, l)
    ensures LagsOne(Rearm(r, was, now), Rearm(l, was, now))
  {
  }

  /** Lagging copies with the same new run list roll up to lagging copies. */
  lemma RolledLags(r: Session, l: Session, runs: seq<AgentRun>)
    requires LagsOne(r, l)
    ensures r.runs == l.runs && LagsOne(Rolled(r.(runs := runs)), Rolled(l.(runs := runs)))
  {
    hide RollupState, NormalizedUrgency;
  }

  lemma SettledLags(r: Hub, l: Hub, rs: Session, ls: Session)
    requires Lags(r, l) && LagsOne(rs, ls)
    ensures rs.sessionId == ls.sessionId && LagsOne(Settle(r.sessions, rs), Settle(l.sessions, ls))
  {
    hide Rolled, AnySoloed, Lags;
    LagKeepsNotify(r, l);
    RearmLags(rs, ls, Notifies(l.sessions, ls.sessionId), ShouldNotify(ls, AnySoloed(l.sessions)));
  }

  lemma RunRowLags(r: Hub, l: Hub, id: Id, runs: seq<AgentRun>)
    requires Lags(r, l) && id in l.sessions
    ensures id in r.sessions && r.sessions[id].runs == l.sessions[id].runs
    ensures var rs, ls := Rolled(r.sessions[id].(runs := runs)), Rolled(l.sessions[id].(runs := runs));
      Lags(Hub(r.sessions[id := Settle(r.sessions, rs)], r.order),
          Hub(l.sessions[id := Settle(l.sessions, ls)], l.order))
  {
    hide Rolled, Settle, LagsOne;
    RolledLags(r.sessions[id], l.sessions[id], runs);
    var rs, ls := Rolled(r.sessions[id].(runs := runs)), Rolled(l.sessions[id].(runs := runs));
    SettledLags(r, l, rs, ls);
  }

  lemma SessionRowLags(r: Hub, l: Hub, s: Session)
    requires Lags(r, l)
    ensures Lags(Step(r, Op.UpsertSession(s)).hub, Step(l, Op.UpsertSession(s)).hub)
  {
    hide Rolled, Settle;
    SettledLags(r, l, Rolled(s), Rolled(s));
    var rs, ls := Settle(r.sessions, Rolled(s)), Settle(l.sessions, Rolled(s));
  }

  lemma RowKeepsLag(r: Hub, l: Hub, row: Row)
    requires Lags(r, l)
    ensures Lags(Step(r, RowOp(row)).hub, Step(l, RowOp(row)).hub)
  {
    hide Rolled, Settle, Reconciled, Notifies, LagsOne, PutRun, DropRun, HasRun, Without, Updates;
    var rm, lm := r.sessions, l.sessions;
    match row
    case SessionUpsert(s) => SessionRowLags(r, l, s);
    case SessionRemove(id) =>
      if id in lm {
        LagKeepsNotify(r, l);
        ReconciledLags(rm, lm, rm - {id}, lm - {id});
      }
    case RunUpsert(id, run) => if id in lm { RunRowLags(r, l, id, PutRun(lm[id].runs, run)); }
    case RunRemove(id, runId) => if id in lm { RunRowLags(r, l, id, DropRun(lm[id].runs, runId)); }
  }

  lemma ReconciledLags(rBefore: Sessions, lBefore: Sessions, r: Sessions, l: Sessions)
    requires forall id :: Notifies(rBefore, id) == Notifies(lBefore, id)
    requires r.Keys == l.Keys && forall id :: id in l ==> LagsOne(r[id], l[id])
    ensures Reconciled(rBefore, r).Keys == Reconciled(lBefore, l).Keys == l.Keys
    ensures forall id :: id in l ==> LagsOne(Reconciled(rBefore, r)[id], Reconciled(lBefore, l)[id])
  {
    hide Notifies, Rearm, LagsOne;
    LagKeepsNotify(Hub(r, []), Hub(l, []));
    forall id | id in l {
      RearmLags(r[id], l[id], Notifies(lBefore, id), Notifies(l, id));
    }
  }

  // --------------------------------------------- replaying a flag command

  /** The one loss: un-soloing, by unmute, the only soloed session while it is
      waiting, unmuted and still unread. */
  predicate LosesBadge(m: Sessions, op: Op) {
    && op.Unmute? && op.sessionId in m
    && SoloedUnread(m[op.sessionId])
    && forall id :: id in m && id != op.sessionId ==> !m[id].soloed
  }

  predicate SoloedUnread(s: Session) {
    s.soloed && s.unread && !s.muted && s.rollupState == Waiting
  }

  /** What replaying the row of a changed session stores for it. */
  function Replayed(m: Sessions, op: Op, id: Id): Session
    requires id in Edited(m, op)
  {
    var s := Reconciled(m, Edited(m, op))[id];
    if LosesBadge(m, op) && id == op.sessionId then s.(unread := false) else s
  }

  /** A state in the middle of a replay: the rows of `done` are in, the others still
      carry the flags from before the command. */
  ghost predicate Midway(mid: Sessions, before: Sessions, after: Sessions, done: set<Id>) {
    && mid.Keys == before.Keys == after.Keys
    && forall id :: id in mid ==>
         var s := if id in done then after[id] else before[id];
         mid[id].muted == s.muted && mid[id].soloed == s.soloed && mid[id].rollupState == s.rollupState
  }

  /** Live edge first, replayed edge second, on one session: `any`, `anyAfter` and
      `anyMid` are the solo bits before, after, and midway through the replay. */
  function LiveThenReplayed(s: Session, e: Session, any: bool, anyAfter: bool, anyMid: bool): Session {
    Rearm(Rearm(e, ShouldNotify(s, any), ShouldNotify(e, anyAfter)), ShouldNotify(s, anyMid), ShouldNotify(e, anyMid))
  }

  lemma ReplayTwice(s: Session, e: Session, any: bool, anyAfter: bool, anyMid: bool)
    requires e == s.(muted := e.muted, soloed := e.soloed)
    ensures var live := Rearm(e, ShouldNotify(s, any), ShouldNotify(e, anyAfter));
      && (e == s ==> LiveThenReplayed(s, e, any, anyAfter, anyMid) == live)
      && (e.muted && anyMid == any ==> LiveThenReplayed(s, e, any, anyAfter, anyMid) == live)
      && (e.soloed && !e.muted && anyAfter && (anyMid ==> any) ==>
          LiveThenReplayed(s, e, any, anyAfter, anyMid) == live)
      && (s.soloed && !e.soloed && any && anyAfter && anyMid ==> LiveThenReplayed(s, e, any, anyAfter, anyMid) == live)
    ensures !e.muted && !e.soloed && anyMid == any && (anyAfter ==> any) ==>
      var live := Rearm(e, ShouldNotify(s, any), ShouldNotify(e, anyAfter));
      LiveThenReplayed(s, e, any, anyAfter, anyMid) ==
        if any && !anyAfter && ShouldNotify(s, any) && s.unread then live.(unread := false) else live
  {
  }

  lemma MidwayBit(m: Sessions, op: Op, mid: Sessions, done: set<Id>)
    requires (op.Mute? || op.Unmute?) && op.sessionId !in done
    requires Midway(mid, m, Reconciled(m, Edited(m, op)), done)
    ensures AnySoloed(mid) == AnySoloed(m)
  {
    SameFlagsSameBit(mid, m);
  }

  lemma EditedIsFlagEdit(m: Sessions, op: Op, id: Id)
    requires IsFlagOp(op) && id in m
    ensures var e := Edited(m, op); e.Keys == m.Keys && e[id] == m[id].(muted := e[id].muted, soloed := e[id].soloed)
  {
  }

  lemma SettleMidwayEdge(before: Session, mid: Sessions, s: Session)
    requires s.sessionId in mid
    requires var held := mid[s.sessionId];
      held.muted == before.muted && held.soloed == before.soloed && held.rollupState == before.rollupState
    ensures Settle(mid, s) == Rearm(s, ShouldNotify(before, AnySoloed(mid)), ShouldNotify(s, AnySoloed(mid)))
  {
  }

  lemma SettledMidway(m: Sessions, op: Op, mid: Sessions, done: set<Id>, id: Id)
    requires IsFlagOp(op) && id in m && id !in done && m[id].sessionId == id
    requires Midway(mid, m, Reconciled(m, Edited(m, op)), done)
    ensures var e := Edited(m, op);
      && e.Keys == m.Keys
      && e[id] == m[id].(muted := e[id].muted, soloed := e[id].soloed)
      && Reconciled(m, e)[id] == Rearm(e[id], ShouldNotify(m[id], AnySoloed(m)), ShouldNotify(e[id], AnySoloed(e)))
      && Settle(mid, Reconciled(m, e)[id]) == LiveThenReplayed(m[id], e[id], AnySoloed(m), AnySoloed(e), AnySoloed(mid))
  {
    hide AnySoloed, Edited;
    EditedIsFlagEdit(m, op, id);
    var live := Reconciled(m, Edited(m, op))[id];
    SettleMidwayEdge(m[id], mid, live);
    assert ShouldNotify(live, AnySoloed(mid)) == ShouldNotify(Edited(m, op)[id], AnySoloed(mid));
  }

  lemma MuteRowEffect(m: Sessions, op: Op, mid: Sessions, done: set<Id>, id: Id)
    requires op.Mute? && id in m && id !in done && m[id].sessionId == id
    requires Midway(mid, m, Reconciled(m, Edited(m, op)), done)
    ensures Settle(mid, Reconciled(m, Edited(m, op))[id]) == Replayed(m, op, id)
  {
    SettledMidway(m, op, mid, done, id);
    var e := Edited(m, op);
    ReplayTwice(m[id], e[id], AnySoloed(m), AnySoloed(e), AnySoloed(mid));
    if id == op.sessionId { MidwayBit(m, op, mid, done); }
  }

  /** A cleared session leaves the set live and on replay alike, and the target
      enters on replay only if it entered live. */
  lemma SoloRowEffect(m: Sessions, op: Op, mid: Sessions, done: set<Id>, id: Id)
    requires op.Solo? && id in m && id !in done && m[id].sessionId == id
    requires Midway(mid, m, Reconciled(m, Edited(m, op)), done)
    ensures Settle(mid, Reconciled(m, Edited(m, op))[id]) == Replayed(m, op, id)
  {
    SettledMidway(m, op, mid, done, id);
    var e := Edited(m, op);
    ReplayTwice(m[id], e[id], AnySoloed(m), AnySoloed(e), AnySoloed(mid));
    if op.sessionId in m {
      assert e[op.sessionId].soloed;
      if id == op.sessionId {
        SoloMidwayBit(m, op, mid, done);
      } else if m[id].soloed {
        assert mid[id].soloed;
      } else {
        assert e[id] == m[id];
      }
    }
  }

  lemma SoloMidwayBit(m: Sessions, op: Op, mid: Sessions, done: set<Id>)
    requires op.Solo? && op.sessionId in m && op.sessionId !in done
    requires Midway(mid, m, Reconciled(m, Edited(m, op)), done)
    ensures AnySoloed(mid) ==> AnySoloed(m)
  {
    hide Notifies;
    if AnySoloed(mid) {
      var k :| k in mid && mid[k].soloed;
      assert k !in done;
      assert m[k].soloed;
    }
  }

  /** The replay judges the target with the solo bit from before its own row, which
      is where a badge can be lost. */
  lemma UnmuteRowEffect(m: Sessions, op: Op, mid: Sessions, done: set<Id>, id: Id)
    requires op.Unmute? && id in m && id !in done && m[id].sessionId == id
    requires Midway(mid, m, Reconciled(m, Edited(m, op)), done)
    ensures Settle(mid, Reconciled(m, Edited(m, op))[id]) == Replayed(m, op, id)
  {
    SettledMidway(m, op, mid, done, id);
    var e := Edited(m, op);
    ReplayTwice(m[id], e[id], AnySoloed(m), AnySoloed(e), AnySoloed(mid));
    if id == op.sessionId {
      MidwayBit(m, op, mid, done);
      UnmuteBit(m, op);
    }
  }

  lemma UnmuteBit(m: Sessions, op: Op)
    requires op.Unmute? && op.sessionId in m
    ensures AnySoloed(Edited(m, op)) <==> exists k :: k in m && k != op.sessionId && m[k].soloed
    ensures AnySoloed(Edited(m, op)) ==> AnySoloed(m)
    ensures LosesBadge(m, op) <==>
      var s := m[op.sessionId];
      AnySoloed(m) && !AnySoloed(Edited(m, op)) && ShouldNotify(s, AnySoloed(m)) && s.unread
  {
    var e := Edited(m, op);
    if AnySoloed(e) {
      var k :| k in e && e[k].soloed;
      assert k in m && k != op.sessionId && m[k].soloed;
    }
    if k :| k in m && k != op.sessionId && m[k].soloed {
      assert e[k].soloed;
    }
    if m[op.sessionId].soloed { assert AnySoloed(m); }
  }

  lemma RowEffect(m: Sessions, op: Op, mid: Sessions, done: set<Id>, id: Id)
    requires IsFlagOp(op) && id in m && id !in done && m[id].sessionId == id
    requires Midway(mid, m, Reconciled(m, Edited(m, op)), done)
    ensures Settle(mid, Reconciled(m, Edited(m, op))[id]) == Replayed(m, op, id)
  {
    match op
    case Mute(_) => MuteRowEffect(m, op, mid, done, id);
    case Solo(_) => SoloRowEffect(m, op, mid, done, id);
    case Unmute(_) => UnmuteRowEffect(m, op, mid, done, id);
  }

  // ------------------------------------------------- replaying row by row

  lemma {:induction false} ReplayConcat(h: Hub, a: seq<Row>, b: seq<Row>)
    ensures ReplayFrom(h, a + b) == ReplayFrom(ReplayFrom(h, a), b)
    decreases |a|
  {
    if a == [] {
      assert a + b == b;
    } else {
      assert (a + b)[0] == a[0] && (a + b)[1..] == a[1..] + b;
      ReplayConcat(Step(h, RowOp(a[0])).hub, a[1..], b);
    }
  }

  lemma {:induction false} RowsOfUpdates(l: seq<Id>, before: Sessions, after: Sessions)
    requires l != []
    ensures var rest := RowsOf(Updates(l[1..], before, after));
      RowsOf(Updates(l, before, after)) ==
      if Changed(l[0], before, after) then [SessionUpsert(after[l[0]])] + rest else rest
  {
  }

  /** Both outcomes of a flag command, for every session: live, and after a restart. */
  datatype Fate = Fate(before: Sessions, live: Sessions, replayed: Sessions)

  function FateOf(m: Sessions, op: Op): Fate {
    var e := Edited(m, op);
    Fate(m, Reconciled(m, e), map id | id in e :: Replayed(m, op, id))
  }

  ghost predicate Settled(m: Sessions) {
    forall id :: id in m ==> m[id].sessionId == id && Rolled(m[id]) == m[id]
  }

  /** What makes a row-by-row replay work: whatever mix of old and new flags it meets
      midway, a row stores its session's replayed value, which is the live one but
      for the badge. */
  ghost predicate ReplaysAs(f: Fate) {
    && f.live.Keys == f.replayed.Keys == f.before.Keys
    && (forall id :: id in f.live ==> LagsOne(f.replayed[id], f.live[id]))
    && (forall mid, done, id | Midway(mid, f.before, f.live, done) && id in f.before && id !in done ::
          StoresReplayed(mid, f, id))
  }

  predicate StoresReplayed(mid: Sessions, f: Fate, id: Id)
    requires id in f.live && id in f.replayed
  {
    var live := f.live[id];
    live.sessionId == id && Rolled(live) == live && Settle(mid, live) == f.replayed[id]
  }

  lemma FateKeys(m: Sessions, op: Op)
    requires IsFlagOp(op)
    ensures var f := FateOf(m, op); f.before == m && f.live.Keys == f.replayed.Keys == m.Keys
    ensures var f := FateOf(m, op); forall id :: id in m ==>
      f.replayed[id] == if LosesBadge(m, op) && id == op.sessionId then f.live[id].(unread := false) else f.live[id]
  {
    assert Edited(m, op).Keys == m.Keys;
  }

  lemma FateStores(m: Sessions, op: Op, mid: Sessions, done: set<Id>, id: Id)
    requires IsFlagOp(op) && Settled(m) && id in m && id !in done
    requires Midway(mid, m, FateOf(m, op).live, done)
    ensures var f := FateOf(m, op); id in f.live && id in f.replayed && StoresReplayed(mid, f, id)
  {
    EditedIsFlagEdit(m, op, id);
    var live := FateOf(m, op).live[id];
    RolledIgnoresFlags(m[id], live.muted, live.soloed, live.unread);
    RowEffect(m, op, mid, done, id);
  }

  lemma LiveIsStep(h: Hub, op: Op)
    requires IsFlagOp(op)
    ensures Step(h, op).hub == Hub(FateOf(h.sessions, op).live, h.order)
    ensures Step(h, op).events == Updates(h.order, h.sessions, FateOf(h.sessions, op).live)
  {
    hide Edited, Reconciled, Replayed, Updates;
  }

  lemma FateLags(m: Sessions, op: Op)
    requires IsFlagOp(op)
    ensures var f := FateOf(m, op);
      && f.before == m && f.live.Keys == f.replayed.Keys == m.Keys
      && forall id :: id in m ==> LagsOne(f.replayed[id], f.live[id])
  {
    hide FateOf, LosesBadge;
    FateKeys(m, op);
  }

  lemma FateReplays(m: Sessions, op: Op)
    requires IsFlagOp(op) && Settled(m)
    ensures ReplaysAs(FateOf(m, op))
  {
    hide FateOf, Rolled, StoresReplayed, LagsOne, Midway;
    var f := FateOf(m, op);
    FateLags(m, op);
    forall mid, done, id | Midway(mid, f.before, f.live, done) && id in f.before && id !in done
      ensures StoresReplayed(mid, f, id) {
      FateStores(m, op, mid, done, id);
    }
  }

  lemma MidwayNext(f: Fate, mid: Sessions, done: set<Id>, id: Id)
    requires Midway(mid, f.before, f.live, done) && id in f.live && id in f.replayed
    requires LagsOne(f.replayed[id], f.live[id])
    ensures Midway(mid[id := f.replayed[id]], f.before, f.live, done + {id})
    ensures !Changed(id, f.before, f.live) ==> Midway(mid, f.before, f.live, done + {id})
  {
  }

  /** The base map with the changed sessions of `l` replaced by their replayed values. */
  function Overlay(base: Sessions, l: seq<Id>, f: Fate): Sessions {
    map id | id in base ::
      if id in l && Changed(id, f.before, f.live) && id in f.replayed then f.replayed[id] else base[id]
  }

  lemma OverlayCons(base: Sessions, l: seq<Id>, f: Fate)
    requires l != [] && l[0] !in l[1..] && l[0] in base && l[0] in f.replayed
    ensures Overlay(base, l, f) ==
      Overlay(if Changed(l[0], f.before, f.live) then base[l[0] := f.replayed[l[0]]] else base, l[1..], f)
  {
    assert l == [l[0]] + l[1..];
  }

  lemma {:induction false} ReplayUpdates(f: Fate, mid: Hub, done: set<Id>, l: seq<Id>)
    requires ReplaysAs(f) && Distinct(l) && forall id :: id in l ==> id in f.before && id !in done
    requires Midway(mid.sessions, f.before, f.live, done)
    ensures ReplayFrom(mid, RowsOf(Updates(l, f.before, f.live))) == Hub(Overlay(mid.sessions, l, f), mid.order)
    decreases |l|
  {
    if l == [] {
      assert Overlay(mid.sessions, l, f) == mid.sessions;
    } else {
      var id, rest := l[0], l[1..];
      DistinctTail(l);
      RowsOfUpdates(l, f.before, f.live);
      MidwayNext(f, mid.sessions, done, id);
      OverlayCons(mid.sessions, l, f);
      if Changed(id, f.before, f.live) {
        assert StoresReplayed(mid.sessions, f, id);
        var next := Hub(mid.sessions[id := f.replayed[id]], mid.order);
        ReplayUpdates(f, next, done + {id}, rest);
      } else {
        ReplayUpdates(f, mid, done + {id}, rest);
      }
    }
  }

  lemma DistinctTail(l: seq<Id>)
    requires l != [] && Distinct(l)
    ensures Distinct(l[1..]) && l[0] !in l[1..]
    ensures forall id :: id in l[1..] ==> id in l
  {
    assert forall k :: 0 <= k < |l[1..]| ==> l[1..][k] == l[k + 1];
  }

  // ------------------------------------------------------- main theorems

  /** Enough room for everything this operation can write. */
  function Healthy(st: Store, op: Op): Result {
    Apply(st, op, 1 + |Step(st.hub, op).events|)
  }

  function StoreAfter(ops: seq<Op>): Store {
    if ops == [] then Fresh else Healthy(StoreAfter(ops[..|ops| - 1]), ops[|ops| - 1]).store
  }

  ghost predicate Restartable(st: Store) {
    Valid(st.hub) && Lags(Replay(st.log), st.hub)
  }

  lemma LagIsMidway(r: Hub, l: Hub, op: Op)
    requires Lags(r, l) && IsFlagOp(op)
    ensures Midway(r.sessions, l.sessions, FateOf(l.sessions, op).live, {})
  {
    FateKeys(l.sessions, op);
  }

  lemma LagsAlike(r: Hub, l: Hub)
    requires Lags(r, l)
    ensures r.order == l.order && r.sessions.Keys == l.sessions.Keys
  {
  }

  /** A restart replays a flag command to the overlay of its rows. */
  lemma ReplayFlagCommand(r: Hub, l: Hub, op: Op)
    requires Valid(l) && Lags(r, l) && IsFlagOp(op)
    ensures ReplayFrom(r, RowsOf(Step(l, op).events)) ==
        Hub(Overlay(r.sessions, l.order, FateOf(l.sessions, op)), l.order)
  {
    hide Step, FateOf, Rolled, ReplaysAs, Midway, Lags, ReplayFrom, RowsOf, Updates, Overlay;
    LagsAlike(r, l);
    LiveIsStep(l, op);
    FateReplays(l.sessions, op);
    FateLags(l.sessions, op);
    LagIsMidway(r, l, op);
    ReplayUpdates(FateOf(l.sessions, op), r, {}, l.order);
  }

  lemma OverlayLags(r: Sessions, l: seq<Id>, f: Fate)
    requires f.live.Keys == f.replayed.Keys == f.before.Keys == r.Keys
    requires forall id :: id in f.before ==>
      id in l && LagsOne(r[id], f.before[id]) && LagsOne(f.replayed[id], f.live[id])
    ensures Overlay(r, l, f).Keys == f.live.Keys
    ensures forall id :: id in f.live ==> LagsOne(Overlay(r, l, f)[id], f.live[id])
  {
  }

  lemma FlagCommandKeepsLag(r: Hub, l: Hub, op: Op)
    requires Valid(l) && Lags(r, l) && IsFlagOp(op)
    ensures Lags(ReplayFrom(r, RowsOf(Step(l, op).events)), Step(l, op).hub)
  {
    hide Rolled, LagsOne, Step, FateOf, Overlay, ReplayFrom, RowsOf;
    ReplayFlagCommand(r, l, op);
    LiveIsStep(l, op);
    FateLags(l.sessions, op);
    OverlayLags(r.sessions, l.order, FateOf(l.sessions, op));
  }

  lemma OverlayExact(m: Sessions, l: seq<Id>, f: Fate)
    requires f.live.Keys == f.replayed.Keys == f.before.Keys && m == f.before
    requires forall id :: id in m ==> id in l
    ensures Overlay(m, l, f) == f.live <==>
      forall id :: id in m && Changed(id, m, f.live) ==> f.replayed[id] == f.live[id]
  {
    if Overlay(m, l, f) == f.live {
      forall id | id in m && Changed(id, m, f.live) ensures f.replayed[id] == f.live[id] {
        assert Overlay(m, l, f)[id] == f.replayed[id];
      }
    }
  }

  lemma LosingUnmuteChanges(m: Sessions, op: Op)
    requires LosesBadge(m, op)
    ensures var f := FateOf(m, op); var id := op.sessionId;
      Changed(id, m, f.live) && f.live[id].unread
  {
    FateKeys(m, op);
    UnmuteBit(m, op);
    EditedIsFlagEdit(m, op, op.sessionId);
  }

  lemma FlagCommandExact(l: Hub, op: Op)
    requires Valid(l) && IsFlagOp(op)
    ensures ReplayFrom(l, RowsOf(Step(l, op).events)) == Step(l, op).hub <==> !LosesBadge(l.sessions, op)
  {
    ReplayFlagCommand(l, l, op);
    FateKeys(l.sessions, op);
    OverlayExact(l.sessions, l.order, FateOf(l.sessions, op));
    if LosesBadge(l.sessions, op) { LosingUnmuteChanges(l.sessions, op); }
  }

  /** The operation as the engine sees it: an upsert arrives with the held flags. */
  function StoredOp(m: Sessions, op: Op): Op {
    if op.UpsertSession? then Op.UpsertSession(Preserved(m, op.session)) else op
  }

  lemma FocusKeepsLag(r: Hub, l: Hub, id: Id)
    requires Valid(l) && Lags(r, l)
    ensures var out := Step(l, Focus(id));
      out.events != [] ==>
        && Lags(ReplayFrom(r, [SessionUpsert(out.hub.sessions[id])]), out.hub)
        && ReplayFrom(l, [SessionUpsert(out.hub.sessions[id])]) == out.hub
  {
    var out := Step(l, Focus(id));
    if out.events != [] {
      var read := out.hub.sessions[id];
      LagKeepsNotify(r, l);
      RolledIgnoresFlags(l.sessions[id], read.muted, read.soloed, false);
    }
  }

  /** A healthy operation appends rows whose live effect is the operation itself. */
  lemma HealthyFlag(st: Store, op: Op)
    requires IsFlagOp(op)
    ensures Healthy(st, op).store == Store(st.log + RowsOf(Step(st.hub, op).events), Step(st.hub, op).hub)
  {
  }

  predicate IsReporterOp(op: Op) { op.UpsertSession? || op.RemoveSession? || op.UpsertRun? || op.RemoveRun? }

  function RowFor(m: Sessions, op: Op): Row
    requires IsReporterOp(op)
  {
    match op
    case UpsertSession(s) => SessionUpsert(Preserved(m, s))
    case RemoveSession(id) => SessionRemove(id)
    case UpsertRun(id, run) => RunUpsert(id, run)
    case RemoveRun(id, runId) => RunRemove(id, runId)
  }

  lemma HealthyRow(st: Store, op: Op)
    requires IsReporterOp(op)
    ensures var row := RowFor(st.hub.sessions, op);
      && RowOp(row) == StoredOp(st.hub.sessions, op)
      && (Healthy(st, op).store == Store(st.log + [row], Step(st.hub, RowOp(row)).hub)
          || (Healthy(st, op).store == st && Step(st.hub, RowOp(row)).hub == st.hub))
  {
  }

  /** Every healthy operation keeps the log a faithful history, badges aside. */
  lemma StepKeepsRestartable(st: Store, op: Op)
    requires Restartable(st)
    ensures Restartable(Healthy(st, op).store)
    ensures Healthy(st, op).store.hub == Step(st.hub, StoredOp(st.hub.sessions, op)).hub
  {
    var r, l := Replay(st.log), st.hub;
    StepKeepsValid(l, StoredOp(l.sessions, op));
    if IsFlagOp(op) {
      HealthyFlag(st, op);
      FlagCommandKeepsLag(r, l, op);
      ReplayConcat(EmptyHub, st.log, RowsOf(Step(l, op).events));
    } else if op.Focus? {
      FocusKeepsLag(r, l, op.sessionId);
      if Step(l, op).events != [] {
        ReplayConcat(EmptyHub, st.log, [SessionUpsert(Step(l, op).hub.sessions[op.sessionId])]);
      }
    } else {
      var row := RowFor(l.sessions, op);
      HealthyRow(st, op);
      RowKeepsLag(r, l, row);
      ReplayConcat(EmptyHub, st.log, [row]);
    }
  }

  /** Over every run on a healthy disk: a restart rebuilds the same sessions, in the
      same order, with the same fields, except that an unread badge may be missing;
      it never invents one. */
  lemma {:induction false} RestartLosesOnlyBadges(ops: seq<Op>)
    ensures Restartable(StoreAfter(ops))
  {
    if ops != [] {
      RestartLosesOnlyBadges(ops[..|ops| - 1]);
      StepKeepsRestartable(StoreAfter(ops[..|ops| - 1]), ops[|ops| - 1]);
    }
  }

  /** What a logged report leaves: everything it says about the session, rolled up from the
      runs it brings; but a held session keeps the Hub's mute and solo, and its badge, which
      moves only with its notifying. Nobody else changes. */
  lemma ReportLands(st: Store, s: Session, room: nat)
    requires Valid(st.hub) && room > 0
    ensures var h, h', id := st.hub, Apply(st, UpsertSession(s), room).store.hub, s.sessionId;
      && id in h'.sessions
      && (var t, flags := h'.sessions[id], if id in h.sessions then h.sessions[id] else s;
          && t.sessionId == id && t.title == s.title && t.runs == s.runs && t.details == s.details
          && t.muted == flags.muted && t.soloed == flags.soloed
          && SpeaksForRuns(t) && BadgeMoved(h.sessions, h'.sessions, id, flags.unread, t))
      && OthersStand(h.sessions, h'.sessions, id)
      && h'.order == (if id in h.sessions then h.order else h.order + [id])
  {
    hide Step, SpeaksForRuns, BadgeMoved, OthersStand, Rolled, Settle;
    UpsertLands(st.hub, Preserved(st.hub.sessions, s));
  }

  predicate UnflaggedWhenNew(m: Sessions, op: Op) {
    op.UpsertSession? && op.session.sessionId !in m ==> !op.session.muted && !op.session.soloed && !op.session.unread
  }

  /** Whatever a reporter claims about a held session, the operation reaching the
      engine keeps the Hub's flags; only a new session's claims get through. */
  lemma StorePreservesFlags(m: Sessions, op: Op)
    ensures FlagsPreserved(m, StoredOp(m, op)) <==> UnflaggedWhenNew(m, op)
  {
  }

  /** So the store keeps the attention policy, and the three notify rules agreeing,
      over every run in which new sessions arrive without flags. */
  lemma {:induction false} StoreKeepsPolicy(ops: seq<Op>)
    requires forall k :: 0 <= k < |ops| ==> UnflaggedWhenNew(StoreAfter(ops[..k]).hub.sessions, ops[k])
    ensures Policy(StoreAfter(ops).hub)
    ensures forall id :: Notifies(StoreAfter(ops).hub.sessions, id) == HostNotifies(StoreAfter(ops).hub.sessions, id)
  {
    hide Valid, Healthy, StoredOp, LosesBadge, UnflaggedWhenNew, Step;
    if ops != [] {
      var n := |ops| - 1;
      var before := StoreAfter(ops[..n]);
      forall k | 0 <= k < n ensures UnflaggedWhenNew(StoreAfter(ops[..n][..k]).hub.sessions, ops[..n][k]) {
        assert ops[..n][..k] == ops[..k];
      }
      StoreKeepsPolicy(ops[..n]);
      RestartLosesOnlyBadges(ops[..n]);
      StorePreservesFlags(before.hub.sessions, ops[n]);
      StepKeepsRestartable(before, ops[n]);
      StepKeepsPolicy(before.hub, StoredOp(before.hub.sessions, ops[n]));
    } else {
      RunKeepsPolicy([]);
    }
    forall id ensures Notifies(StoreAfter(ops).hub.sessions, id) == HostNotifies(StoreAfter(ops).hub.sessions, id) {
      NotifyRulesDiffer(StoreAfter(ops).hub.sessions, id);
    }
  }

  /** The documented promise, step by step, with its exact condition: a faithful log
      stays faithful unless the operation is the losing unmute. */
  lemma StepExact(st: Store, op: Op)
    requires Valid(st.hub) && Replay(st.log) == st.hub
    ensures var st' := Healthy(st, op).store;
      Replay(st'.log) == st'.hub <==> !LosesBadge(st.hub.sessions, op)
  {
    var l := st.hub;
    if IsFlagOp(op) {
      HealthyFlag(st, op);
      FlagCommandExact(l, op);
      ReplayConcat(EmptyHub, st.log, RowsOf(Step(l, op).events));
    } else if op.Focus? {
      FocusKeepsLag(l, l, op.sessionId);
      if Step(l, op).events != [] {
        ReplayConcat(EmptyHub, st.log, [SessionUpsert(Step(l, op).hub.sessions[op.sessionId])]);
      }
    } else {
      var row := RowFor(l.sessions, op);
      HealthyRow(st, op);
      ReplayConcat(EmptyHub, st.log, [row]);
    }
  }

  /** On the states disciplined runs reach, the losing operation is simply un-soloing
      a session that is still unread. */
  lemma LosingUnmuteUnderPolicy(h: Hub, op: Op)
    requires Policy(h)
    ensures LosesBadge(h.sessions, op) <==>
      op.Unmute? && op.sessionId in h.sessions && h.sessions[op.sessionId].soloed && h.sessions[op.sessionId].unread
  {
  }

  lemma FirstWaiting(s: Session, run: AgentRun)
    requires s.runs == [run] && run.state == Waiting && !s.muted && !s.soloed
    ensures var m := Healthy(Fresh, UpsertSession(s)).store.hub.sessions;
      m.Keys == {s.sessionId} && Armed(m[s.sessionId])
  {
    assert RollupState([run]) == Some(Waiting) by { assert [run][..0] == []; }
    HealthyRow(Fresh, UpsertSession(s));
  }

  predicate Armed(s: Session) {
    s.unread && !s.muted && !s.soloed && s.rollupState == Waiting
  }

  lemma SoloOfOne(m: Sessions, id: Id)
    requires m.Keys == {id} && Armed(m[id])
    ensures var after := Reconciled(m, Edited(m, Solo(id))); after.Keys == {id} && SoloedUnread(after[id])
  {
    var e := Edited(m, Solo(id));
    assert e.Keys == {id} && e[id].soloed;
    assert !AnySoloed(m);
    assert Notifies(m, id) && Notifies(e, id);
  }

  /** After a losing unmute the badge is up live and down after a restart. */
  lemma LosingUnmuteLoses(st: Store, op: Op)
    requires Restartable(st) && LosesBadge(st.hub.sessions, op)
    ensures var st' := Healthy(st, op).store; var id := op.sessionId;
      && id in st'.hub.sessions && st'.hub.sessions[id].unread
      && id in Replay(st'.log).sessions && !Replay(st'.log).sessions[id].unread
  {
    HealthyFlag(st, op);
    LosingUnmuteChanges(st.hub.sessions, op);
    ReplayConcat(EmptyHub, st.log, RowsOf(Step(st.hub, op).events));
    ReplayFlagCommand(Replay(st.log), st.hub, op);
    FateKeys(st.hub.sessions, op);
  }

  /** The loss is reachable: a session starts waiting, is soloed, and is un-soloed
      unread; live it still asks for attention, after a restart it does not. */
  lemma BadgeLossIsReachable(id: Id, run: AgentRun, s: Session)
    requires s.sessionId == id && s.runs == [run] && run.state == Waiting && !s.muted && !s.soloed
    ensures var st := StoreAfter([UpsertSession(s), Solo(id), Unmute(id)]);
      && id in st.hub.sessions && st.hub.sessions[id].unread
      && id in Replay(st.log).sessions && !Replay(st.log).sessions[id].unread
  {
    hide Rolled, Replay, Reconciled, Edited, Settle, Lags, Updates, RowsOf, Valid;
    var one, two, three := [UpsertSession(s)], [UpsertSession(s), Solo(id)], [UpsertSession(s), Solo(id), Unmute(id)];
    assert one[..0] == [] && two[..1] == one && three[..2] == two;
    FirstWaiting(s, run);
    var st1 := StoreAfter(one);
    assert StoreAfter(one[..0]) == Fresh;
    assert st1 == Healthy(Fresh, UpsertSession(s)).store;
    assert StoreAfter(two) == Healthy(st1, Solo(id)).store;
    HealthyFlag(st1, Solo(id));
    SoloOfOne(st1.hub.sessions, id);
    RestartLosesOnlyBadges(two);
    LosingUnmuteLoses(StoreAfter(two), Unmute(id));
  }

  // ------------------------------------------------------ a failing append

  lemma NoRows(before: Sessions, after: Sessions)
    ensures RowsOf(Updates([], before, after)) == []
  {
  }

  lemma {:induction false} RowsPrefix(l: seq<Id>, before: Sessions, after: Sessions, k: nat) returns (p: nat)
    requires k <= |RowsOf(Updates(l, before, after))|
    ensures p <= |l| && RowsOf(Updates(l[..p], before, after)) == RowsOf(Updates(l, before, after))[..k]
    ensures k > 0 ==> exists id :: id in l[..p] && Changed(id, before, after)
  {
    hide *;
    NoRows(before, after);
    if k == 0 {
      p := 0;
      assert l[..0] == [];
    } else {
      assert l != [];
      RowsOfUpdates(l, before, after);
      var rest := l[1..];
      var hit := Changed(l[0], before, after);
      var q := RowsPrefix(rest, before, after, if hit then k - 1 else k);
      p := q + 1;
      assert l[..p][1..] == rest[..q] && l[..p][0] == l[0];
      RowsOfUpdates(l[..p], before, after);
      if hit {
        assert l[0] in l[..p];
      } else {
        var id :| id in rest[..q] && Changed(id, before, after);
        assert l[..p] == [l[0]] + rest[..q];
        assert id in l[..p];
      }
    }
  }

  lemma PartialReplay(h: Hub, op: Op, p: nat)
    requires Valid(h) && IsFlagOp(op) && p <= |h.order|
    ensures var f := FateOf(h.sessions, op);
      ReplayFrom(h, RowsOf(Updates(h.order[..p], f.before, f.live))) ==
          Hub(Overlay(h.sessions, h.order[..p], f), h.order)
  {
    FateReplays(h.sessions, op);
    FateKeys(h.sessions, op);
    LagIsMidway(h, h, op);
    ReplayUpdates(FateOf(h.sessions, op), h, {}, h.order[..p]);
  }

  /** A flag command whose k-th append fails is rolled back in memory, but the rows
      already written stay: log and memory agree again exactly when none was. */
  lemma FailedFlagDiverges(st: Store, op: Op, room: nat)
    requires Valid(st.hub) && Replay(st.log) == st.hub && IsFlagOp(op)
    requires Apply(st, op, room).failed
    ensures var st' := Apply(st, op, room).store;
      st'.hub == st.hub && (Replay(st'.log) == st'.hub <==> room == 0)
  {
    var h := st.hub;
    var rows := RowsOf(Step(h, op).events);
    assert Apply(st, op, room).store == Store(st.log + rows[..room], h);
    ReplayConcat(EmptyHub, st.log, rows[..room]);
    PartialRowsReplay(h, op, room);
  }

  lemma PartialRowsReplay(h: Hub, op: Op, room: nat)
    requires Valid(h) && IsFlagOp(op) && room <= |RowsOf(Step(h, op).events)|
    ensures ReplayFrom(h, RowsOf(Step(h, op).events)[..room]) == h <==> room == 0
  {
    if room > 0 {
      var live := FateOf(h.sessions, op).live;
      var p := RowsPrefix(h.order, h.sessions, live, room);
      PartialReplay(h, op, p);
      var id :| id in h.order[..p] && Changed(id, h.sessions, live);
    }
  }

  /** Focus reports success either way: when its row could not be written the badge is
      cleared live and comes back with a restart. */
  lemma FocusDivergesIfUnwritten(st: Store, id: Id, room: nat)
    requires Valid(st.hub) && Replay(st.log) == st.hub && id in st.hub.sessions && st.hub.sessions[id].unread
    ensures var r := Apply(st, Focus(id), room);
      && !r.failed && id in r.store.hub.sessions && !r.store.hub.sessions[id].unread
      && (Replay(r.store.log) == r.store.hub <==> room > 0)
  {
    hide Rolled, ReplayFrom;
    FocusKeepsLag(st.hub, st.hub, id);
    ReplayConcat(EmptyHub, st.log, [SessionUpsert(Step(st.hub, Focus(id)).hub.sessions[id])]);
  }

  /** Reporter operations fail cleanly: nothing logged, nothing changed. */
  lemma FailedRowIsClean(st: Store, op: Op, room: nat)
    requires IsReporterOp(op) && Apply(st, op, room).failed
    ensures Apply(st, op, room).store == st && Apply(st, op, room).events == []
  {
  }
}
