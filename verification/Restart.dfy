/** Which unread badges a restart misses, after any run of operations on a healthy disk. */
module Restart {
  import opened Protocol
  import opened MergeSpec
  import opened Attention
  import opened Persist

  /** Up in memory, down in what the log rebuilds. */
  predicate Missing(restored: Hub, live: Hub, id: Id) {
    && id in restored.sessions && id in live.sessions
    && live.sessions[id].unread && !restored.sessions[id].unread
  }

  /** The operation is the losing unmute of this session. */
  predicate Loses(m: Sessions, op: Op, id: Id) {
    LosesBadge(m, op) && op.sessionId == id
  }

  /** The operation decides the badge afresh, for the memory and for the log alike: the
      session is gone; or a row of the whole session is logged, for a report of it, an
      acknowledgement, or a flag command that changed it; or a run row or the removal of
      another session starts or ends its notifying. */
  predicate Mends(before: Sessions, op: Op, after: Sessions, id: Id) {
    || id !in after
    || match op
       case UpsertSession(s) => s.sessionId == id
       case Focus(k) => k == id && id in before && before[id].unread
       case RemoveSession(_) => Notifies(before, id) != Notifies(after, id)
       case UpsertRun(_, _) => Notifies(before, id) != Notifies(after, id)
       case RemoveRun(_, _) => Notifies(before, id) != Notifies(after, id)
       case _ => Changed(id, before, after)
  }

  lemma LagOrMissing(r: Hub, l: Hub)
    requires Lags(r, l)
    ensures r == l <==> forall id :: !Missing(r, l, id)
  {
    if forall id :: !Missing(r, l, id) {
      forall id | id in l.sessions ensures r.sessions[id] == l.sessions[id] {
        assert !Missing(r, l, id);
      }
      assert r.sessions == l.sessions;
    }
  }

  // -------------------------------------------------------- one operation

  lemma FlagMissing(r: Hub, l: Hub, op: Op, id: Id)
    requires Valid(l) && Lags(r, l) && IsFlagOp(op)
    ensures var r', l' := ReplayFrom(r, RowsOf(Step(l, op).events)), Step(l, op).hub;
      Missing(r', l', id) <==>
      Loses(l.sessions, op, id) || (Missing(r, l, id) && !Mends(l.sessions, op, l'.sessions, id))
  {
    hide Step, FateOf, Rolled, ReplayFrom, RowsOf, LosesBadge, Valid, Notifies, LagsOne;
    ReplayFlagCommand(r, l, op);
    LiveIsStep(l, op);
    FateKeys(l.sessions, op);
    ValidHolds(l);
    if LosesBadge(l.sessions, op) { LosingUnmuteChanges(l.sessions, op); }
  }

  lemma ValidHolds(h: Hub)
    requires Valid(h)
    ensures forall id :: id in h.sessions <==> id in h.order
  {
  }

  lemma FocusMissing(r: Hub, l: Hub, k: Id, id: Id)
    requires Valid(l) && Lags(r, l) && Step(l, Focus(k)).events != []
    ensures var read := Step(l, Focus(k)).hub.sessions[k];
      var r', l' := ReplayFrom(r, [SessionUpsert(read)]), Step(l, Focus(k)).hub;
      Missing(r', l', id) <==> Missing(r, l, id) && !Mends(l.sessions, Focus(k), l'.sessions, id)
  {
    var read := Step(l, Focus(k)).hub.sessions[k];
    hide Rolled, Settle, ReplayFrom, Valid, LagsOne;
    ValidHolds(l);
    assert read.sessionId == k by { ValidNamed(l, k); }
  }

  lemma ValidNamed(h: Hub, id: Id)
    requires Valid(h) && id in h.sessions
    ensures h.sessions[id].sessionId == id
  {
  }

  /** The same edge on two copies that differ in the badge alone. */
  lemma RearmMissing(r: Session, l: Session, was: bool, now: bool)
    requires LagsOne(r, l)
    ensures var r', l' := Rearm(r, was, now), Rearm(l, was, now);
      (l'.unread && !r'.unread) <==> (l.unread && !r.unread && was == now)
  {
  }

  lemma SessionRowMissing(r: Hub, l: Hub, s: Session, id: Id)
    requires Lags(r, l)
    ensures var r', l' := Step(r, Op.UpsertSession(s)).hub, Step(l, Op.UpsertSession(s)).hub;
      Missing(r', l', id) <==> Missing(r, l, id) && id != s.sessionId
  {
    hide Rolled, LagsOne, Notifies, AnySoloed;
    LagKeepsNotify(r, l);
  }

  lemma RunsRowMissing(r: Hub, l: Hub, k: Id, runs: seq<AgentRun>, id: Id)
    requires Valid(l) && Lags(r, l) && k in l.sessions
    ensures k in r.sessions && r.sessions[k].runs == l.sessions[k].runs
    ensures var rs, ls := Rolled(r.sessions[k].(runs := runs)), Rolled(l.sessions[k].(runs := runs));
      var r' := Hub(r.sessions[k := Settle(r.sessions, rs)], r.order);
      var l' := Hub(l.sessions[k := Settle(l.sessions, ls)], l.order);
      Missing(r', l', id) <==> Missing(r, l, id) && Notifies(l.sessions, id) == Notifies(l'.sessions, id)
  {
    var rs, ls := Rolled(r.sessions[k].(runs := runs)), Rolled(l.sessions[k].(runs := runs));
    RolledLags(r.sessions[k], l.sessions[k], runs);
    ValidNamed(l, k);
    LagKeepsNotify(r, l);
    RearmMissing(rs, ls, Notifies(l.sessions, k), ShouldNotify(ls, AnySoloed(l.sessions)));
    SettledNotifies(l.sessions, k, ls, id);
    assert rs.unread == r.sessions[k].unread && ls.unread == l.sessions[k].unread;
    hide Rolled, AnySoloed, Valid, Rearm, Notifies;
    assert Settle(r.sessions, rs) == Rearm(rs, Notifies(l.sessions, k), ShouldNotify(ls, AnySoloed(l.sessions)));
  }

  /** Storing a session that keeps its solo flag changes nobody else's notifying. */
  lemma SettledNotifies(m: Sessions, k: Id, s: Session, id: Id)
    requires k in m && s.sessionId == k && s.soloed == m[k].soloed
    ensures var m' := m[k := Settle(m, s)];
      Notifies(m', id) == if id == k then ShouldNotify(s, AnySoloed(m)) else Notifies(m, id)
  {
    SameSoloSameBit(m, k, Settle(m, s));
    hide AnySoloed;
  }

  lemma RemovalMissing(r: Hub, l: Hub, k: Id, id: Id)
    requires Valid(l) && Lags(r, l) && k in l.sessions
    ensures var r', l' := Step(r, Op.RemoveSession(k)).hub, Step(l, Op.RemoveSession(k)).hub;
      Missing(r', l', id) <==>
      Missing(r, l, id) && id in l'.sessions && Notifies(l.sessions, id) == Notifies(l'.sessions, id)
  {
    hide Rolled, Valid, Without, Updates, AnySoloed;
    LagKeepsNotify(r, l);
    var rm, lm := r.sessions - {k}, l.sessions - {k};
    LagKeepsNotify(Hub(rm, []), Hub(lm, []));
    SameFlagsSameBit(lm, Reconciled(l.sessions, lm));
    if id in lm { RearmMissing(rm[id], lm[id], Notifies(l.sessions, id), Notifies(lm, id)); }
    hide Notifies, Rearm;
  }

  lemma RowMissing(r: Hub, l: Hub, op: Op, id: Id)
    requires Valid(l) && Lags(r, l) && IsReporterOp(op)
    ensures var o := RowOp(RowFor(l.sessions, op)); var r', l' := Step(r, o).hub, Step(l, o).hub;
      Missing(r', l', id) <==> Missing(r, l, id) && !Mends(l.sessions, op, l'.sessions, id)
  {
    hide Rolled, Settle, Notifies, PutRun, DropRun, HasRun, Without, Updates, Valid, Reconciled, LagsOne;
    var m := l.sessions;
    match op
    case UpsertSession(s) => SessionRowMissing(r, l, Preserved(m, s), id);
    case RemoveSession(k) => if k in m { RemovalMissing(r, l, k, id); }
    case UpsertRun(k, run) => if k in m { RunsRowMissing(r, l, k, PutRun(m[k].runs, run), id); }
    case RemoveRun(k, runId) => if k in m { RunsRowMissing(r, l, k, DropRun(m[k].runs, runId), id); }
  }

  /** The badges a restart would miss, in a store. */
  predicate MissingIn(st: Store, id: Id) { Missing(Replay(st.log), st.hub, id) }

  /** What one healthy operation does to a missing badge, exactly. */
  lemma StepMissing(st: Store, op: Op, id: Id)
    requires Restartable(st)
    ensures var st' := Healthy(st, op).store;
      MissingIn(st', id) <==>
      || Loses(st.hub.sessions, op, id)
      || (MissingIn(st, id) && !Mends(st.hub.sessions, op, st'.hub.sessions, id))
  {
    var r, l := Replay(st.log), st.hub;
    if IsFlagOp(op) {
      HealthyFlag(st, op);
      FlagMissing(r, l, op, id);
      ReplayConcat(EmptyHub, st.log, RowsOf(Step(l, op).events));
    } else if op.Focus? {
      if Step(l, op).events != [] {
        FocusMissing(r, l, op.sessionId, id);
        ReplayConcat(EmptyHub, st.log, [SessionUpsert(Step(l, op).hub.sessions[op.sessionId])]);
      }
    } else {
      var row := RowFor(l.sessions, op);
      HealthyRow(st, op);
      RowMissing(r, l, op, id);
      RowKeepsLag(r, l, row);
      ReplayConcat(EmptyHub, st.log, [row]);
    }
  }

  // ------------------------------------------------------------ whole runs

  /** The k-th operation of the run loses the badge. */
  predicate LostBy(ops: seq<Op>, k: int, id: Id) {
    0 <= k < |ops| && Loses(StoreAfter(ops[..k]).hub.sessions, ops[k], id)
  }

  /** The k-th operation of the run decides it afresh. */
  predicate MendedBy(ops: seq<Op>, k: int, id: Id) {
    0 <= k < |ops| && Mends(StoreAfter(ops[..k]).hub.sessions, ops[k], StoreAfter(ops[..k + 1]).hub.sessions, id)
  }

  /** Lost at some point, and not mended since. */
  ghost predicate LostForGood(ops: seq<Op>, id: Id) {
    exists k :: LostBy(ops, k, id) && forall j :: k < j ==> !MendedBy(ops, j, id)
  }

  lemma SameStart(init: seq<Op>, ops: seq<Op>, k: int, id: Id)
    requires |ops| == |init| + 1 && init == ops[..|init|] && k < |init|
    ensures LostBy(init, k, id) == LostBy(ops, k, id) && MendedBy(init, k, id) == MendedBy(ops, k, id)
  {
    hide StoreAfter, Loses, Mends;
    if 0 <= k {
      assert init[..k] == ops[..k] && init[..k + 1] == ops[..k + 1];
    }
  }

  lemma NoneBeyond(ops: seq<Op>, id: Id)
    ensures forall k: int :: LostBy(ops, k, id) ==> k < |ops|
    ensures forall k: int :: MendedBy(ops, k, id) ==> k < |ops|
  {
    hide StoreAfter, Loses, Mends;
  }

  lemma LostForGoodLast(init: seq<Op>, ops: seq<Op>, id: Id)
    requires |ops| == |init| + 1 && init == ops[..|init|]
    ensures LostForGood(ops, id) <==>
      LostBy(ops, |init|, id) || (LostForGood(init, id) && !MendedBy(ops, |init|, id))
  {
    hide LostBy, MendedBy;
    var n := |init|;
    NoneBeyond(ops, id);
    NoneBeyond(init, id);
    forall k: int | k < n
      ensures LostBy(init, k, id) == LostBy(ops, k, id) && MendedBy(init, k, id) == MendedBy(ops, k, id) {
      SameStart(init, ops, k, id);
    }
    if LostForGood(ops, id) {
      var k :| LostBy(ops, k, id) && forall j :: k < j ==> !MendedBy(ops, j, id);
      if k < n { assert LostBy(init, k, id); }
    }
    if LostForGood(init, id) && !MendedBy(ops, n, id) {
      var k :| LostBy(init, k, id) && forall j :: k < j ==> !MendedBy(init, j, id);
      assert LostBy(ops, k, id);
      forall j | k < j ensures !MendedBy(ops, j, id) {
        if j < n { assert !MendedBy(init, j, id); }
      }
    }
  }

  /** After any run on a healthy disk: a restart misses exactly the badges whose last
      losing unmute was not followed by an operation deciding them afresh. */
  lemma {:induction false} MissingIsHistory(ops: seq<Op>, id: Id)
    ensures MissingIn(StoreAfter(ops), id) <==> LostForGood(ops, id)
  {
    hide Missing, Loses, Mends, Healthy, Restartable, LostForGood;
    if ops == [] {
      NothingLost(id);
    } else {
      var n := |ops| - 1;
      MissingIsHistory(ops[..n], id);
      RestartLosesOnlyBadges(ops[..n]);
      StepMissing(StoreAfter(ops[..n]), ops[n], id);
      assert ops[..n + 1] == ops;
      LostForGoodLast(ops[..n], ops, id);
    }
  }

  lemma NothingLost(id: Id)
    ensures !MissingIn(StoreAfter([]), id) && !LostForGood([], id)
  {
  }

  /** So a restart is exact if and only if every loss was mended. */
  lemma RestartIsExact(ops: seq<Op>)
    ensures Replay(StoreAfter(ops).log) == StoreAfter(ops).hub <==> forall id :: !LostForGood(ops, id)
  {
    hide LostForGood, Missing, StoreAfter, Replay, Lags, Valid;
    RestartLosesOnlyBadges(ops);
    LagOrMissing(Replay(StoreAfter(ops).log), StoreAfter(ops).hub);
    forall id { MissingIsHistory(ops, id); }
    assert forall id :: MissingIn(StoreAfter(ops), id) == Missing(Replay(StoreAfter(ops).log), StoreAfter(ops).hub, id);
  }

  /** A report of the session mends its badge, whatever the report says. */
  lemma ReportMends(ops: seq<Op>, s: Session)
    ensures !MissingIn(StoreAfter(ops + [UpsertSession(s)]), s.sessionId)
  {
    var all, n := ops + [UpsertSession(s)], |ops|;
    assert all[..n] == ops && all[..n + 1] == all;
    hide StoreAfter, Loses, Missing;
    MissingIsHistory(all, s.sessionId);
    assert MendedBy(all, n, s.sessionId);
    LostForGoodLast(ops, all, s.sessionId);
    assert !LostBy(all, n, s.sessionId) by { OnlyUnmuteLoses(StoreAfter(ops).hub.sessions, all[n], s.sessionId); }
  }

  lemma OnlyUnmuteLoses(m: Sessions, op: Op, id: Id)
    ensures Loses(m, op, id) ==> op.Unmute?
  {
  }
}
