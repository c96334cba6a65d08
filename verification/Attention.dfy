/** When a session asks for attention: the solo/mute policy every run keeps, the
    meaning of the `unread` badge over histories, and the agreement of the three
    independently written "should this ping?" predicates. */
module Attention {
  import opened Protocol
  import opened MergeSpec

  // ------------------------------------------------------------- the policy

  ghost predicate OneSolo(m: Sessions) {
    forall i, j :: i in m && j in m && m[i].soloed && m[j].soloed ==> i == j
  }

  ghost predicate SoloedUnmuted(m: Sessions) {
    forall id :: id in m && m[id].soloed ==> !m[id].muted
  }

  ghost predicate UnreadNotifies(m: Sessions) {
    forall id :: id in m && m[id].unread ==> Notifies(m, id)
  }

  ghost predicate Policy(h: Hub) {
    Valid(h) && OneSolo(h.sessions) && SoloedUnmuted(h.sessions) && UnreadNotifies(h.sessions)
  }

  /** The flags belong to the Hub: an upsert repeats the held ones, or none at all
      for a new session. The durable store enforces this for held sessions. */
  predicate FlagsPreserved(m: Sessions, op: Op) {
    op.UpsertSession? ==>
      var s := op.session;
      if s.sessionId in m then
        s.muted == m[s.sessionId].muted && s.soloed == m[s.sessionId].soloed && s.unread == m[s.sessionId].unread
      else !s.muted && !s.soloed && !s.unread
  }

  ghost predicate Disciplined(ops: seq<Op>) {
    forall k :: 0 <= k < |ops| ==> FlagsPreserved(After(ops[..k]).sessions, ops[k])
  }

  /** Storing a session with the solo flag it already had (or none) leaves the
      global solo bit alone. */
  lemma SameSoloSameBit(m: Sessions, id: Id, s: Session)
    requires s.soloed == (id in m && m[id].soloed)
    ensures AnySoloed(m[id := s]) == AnySoloed(m)
  {
    var m' := m[id := s];
    if AnySoloed(m) {
      var k :| k in m && m[k].soloed;
      assert k in m' && m'[k].soloed;
    }
    if AnySoloed(m') {
      var k :| k in m' && m'[k].soloed;
      assert k in m && m[k].soloed;
    }
  }

  // ----------------------------------------------------- one step of unread

  /** Unread after a step: notifying now, and either just started to, or was unread
      and has not been acknowledged by this very step. */
  predicate UnreadAfter(before: Sessions, after: Sessions, op: Op, id: Id)
    requires id in after
  {
    Notifies(after, id) && (Notifies(before, id) ==> before[id].unread && op != Focus(id))
  }

  lemma SettledUnread(m: Sessions, s: Session, op: Op, id: Id)
    requires UnreadNotifies(m) && !op.Focus?
    requires s.unread == (s.sessionId in m && m[s.sessionId].unread)
    requires s.soloed == (s.sessionId in m && m[s.sessionId].soloed)
    requires id in m || id == s.sessionId
    ensures var m' := m[s.sessionId := Settle(m, s)]; m'[id].unread == UnreadAfter(m, m', op, id)
  {
    SameSoloSameBit(m, s.sessionId, Settle(m, s));
  }

  lemma FocusedUnread(m: Sessions, read: Id, id: Id)
    requires UnreadNotifies(m) && read in m && m[read].unread && id in m
    ensures var m' := m[read := m[read].(unread := false)]; m'[id].unread == UnreadAfter(m, m', Focus(read), id)
  {
    SameSoloSameBit(m, read, m[read].(unread := false));
  }

  lemma ReconciledUnread(m: Sessions, edited: Sessions, op: Op, id: Id)
    requires UnreadNotifies(m) && !op.Focus? && id in edited && id in m && edited[id].unread == m[id].unread
    requires forall k :: k in edited ==> k in m
    ensures var after := Reconciled(m, edited);
      && (forall k :: k in after ==> Notifies(after, k) == Notifies(edited, k))
      && after[id].unread == UnreadAfter(m, after, op, id)
  {
    var after := Reconciled(m, edited);
    SameFlagsSameBit(edited, after);
  }

  lemma SameFlagsSameBit(a: Sessions, b: Sessions)
    requires a.Keys == b.Keys && forall k :: k in a ==> a[k].soloed == b[k].soloed
    ensures AnySoloed(a) == AnySoloed(b)
  {
    if AnySoloed(a) { var k :| k in a && a[k].soloed; assert b[k].soloed; }
    if AnySoloed(b) { var k :| k in b && b[k].soloed; assert a[k].soloed; }
  }

  lemma EditedUnread(m: Sessions, op: Op)
    ensures Edited(m, op).Keys == m.Keys && forall id :: id in m ==> Edited(m, op)[id].unread == m[id].unread
  {
  }

  /** A session no operation touched: its badge already says whether it notifies. */
  lemma QuietUnread(m: Sessions, op: Op, id: Id)
    requires UnreadNotifies(m) && id in m && (op == Focus(id) ==> !m[id].unread)
    ensures m[id].unread == UnreadAfter(m, m, op, id)
  {
  }

  /** The crux: whatever the operation and whichever session it names, each held
      session's badge moves by its own notify edge only. */
  lemma StepUnread(h: Hub, op: Op, id: Id)
    requires Policy(h) && FlagsPreserved(h.sessions, op) && id in Step(h, op).hub.sessions
    ensures Step(h, op).hub.sessions[id].unread == UnreadAfter(h.sessions, Step(h, op).hub.sessions, op, id)
  {
    hide OneSolo, SoloedUnmuted, UnreadNotifies, UnreadAfter, Notifies, RollupState, NormalizedUrgency, Edited,
      Reconciled, Settle, Updates;
    var m := h.sessions;
    if IsFlagOp(op) {
      EditedUnread(m, op);
      ReconciledFlags(m, Edited(m, op));
      ReconciledUnread(m, Edited(m, op), op, id);
    } else if Step(h, op).events == [] {
      QuietUnread(m, op, id);
    } else if op.RemoveSession? {
      ReconciledFlags(m, m - {op.sessionId});
      ReconciledUnread(m, m - {op.sessionId}, op, id);
    } else if op.Focus? {
      FocusedUnread(m, op.sessionId, id);
    } else {
      SettledUnread(m, Incoming(m, op), op, id);
    }
  }

  /** The session a reporter operation is about to store, rollups recomputed. */
  function Incoming(m: Sessions, op: Op): Session
    requires op.UpsertSession? || ((op.UpsertRun? || op.RemoveRun?) && op.ownerId in m)
  {
    match op
    case UpsertSession(s) => Rolled(s)
    case UpsertRun(id, run) => Rolled(m[id].(runs := PutRun(m[id].runs, run)))
    case RemoveRun(id, runId) => Rolled(m[id].(runs := DropRun(m[id].runs, runId)))
  }

  // ------------------------------------------------------- policy preserved

  lemma StepKeepsSoloFlags(h: Hub, op: Op)
    requires Policy(h) && FlagsPreserved(h.sessions, op)
    ensures OneSolo(Step(h, op).hub.sessions) && SoloedUnmuted(Step(h, op).hub.sessions)
  {
    hide Valid, UnreadNotifies, OneSolo, SoloedUnmuted, Edited, Reconciled, Rolled, Settle, FlagsPreserved, Updates;
    var m, m' := h.sessions, Step(h, op).hub.sessions;
    if IsFlagOp(op) {
      EditedSoloFlags(m, op);
      ReconciledFlags(m, Edited(m, op));
      SameSoloFlags(Edited(m, op), m');
    } else {
      SoloFlagsKept(h, op);
      FewerSolos(m, m');
    }
  }

  lemma FewerSolos(m: Sessions, m': Sessions)
    requires OneSolo(m) && SoloedUnmuted(m)
    requires forall id :: id in m' && m'[id].soloed ==> id in m && m[id].soloed && m'[id].muted == m[id].muted
    ensures OneSolo(m') && SoloedUnmuted(m')
  {
  }

  lemma EditedSoloFlags(m: Sessions, op: Op)
    requires IsFlagOp(op) && OneSolo(m) && SoloedUnmuted(m)
    ensures OneSolo(Edited(m, op)) && SoloedUnmuted(Edited(m, op))
  {
  }

  lemma SameSoloFlags(a: Sessions, b: Sessions)
    requires OneSolo(a) && SoloedUnmuted(a) && a.Keys == b.Keys
    requires forall id :: id in b ==> b[id].soloed == a[id].soloed && b[id].muted == a[id].muted
    ensures OneSolo(b) && SoloedUnmuted(b)
  {
  }

  lemma SoloFlagsKept(h: Hub, op: Op)
    requires Policy(h) && FlagsPreserved(h.sessions, op) && !IsFlagOp(op)
    ensures var m, m' := h.sessions, Step(h, op).hub.sessions;
      forall id :: id in m' && m'[id].soloed ==> id in m && m[id].soloed && m'[id].muted == m[id].muted
  {
    hide UnreadNotifies, OneSolo, SoloedUnmuted, Notifies, ShouldNotify, RollupState, NormalizedUrgency, Reconciled,
      Updates;
    var m, m' := h.sessions, Step(h, op).hub.sessions;
    if op.RemoveSession? {
      ReconciledFlags(m, m - {op.sessionId});
    } else if op.UpsertSession? || op.UpsertRun? || op.RemoveRun? {
      if Step(h, op).events != [] {
        var s := Incoming(m, op);
        assert m' == m[s.sessionId := Settle(m, s)];
      }
    }
  }

  lemma StepKeepsPolicy(h: Hub, op: Op)
    requires Policy(h) && FlagsPreserved(h.sessions, op)
    ensures Policy(Step(h, op).hub)
  {
    StepKeepsValid(h, op);
    StepKeepsSoloFlags(h, op);
    forall id | id in Step(h, op).hub.sessions && Step(h, op).hub.sessions[id].unread
      ensures Notifies(Step(h, op).hub.sessions, id) {
      StepUnread(h, op, id);
    }
  }

  lemma {:induction false} RunKeepsPolicy(ops: seq<Op>)
    requires Disciplined(ops)
    ensures Policy(After(ops))
  {
    if ops != [] {
      var n := |ops| - 1;
      DisciplinedPrefix(ops, n);
      RunKeepsPolicy(ops[..n]);
      StepKeepsPolicy(After(ops[..n]), ops[n]);
    }
  }

  lemma DisciplinedPrefix(ops: seq<Op>, n: nat)
    requires Disciplined(ops) && n <= |ops|
    ensures Disciplined(ops[..n])
  {
    forall k | 0 <= k < n ensures FlagsPreserved(After(ops[..n][..k]).sessions, ops[..n][k]) {
      assert ops[..n][..k] == ops[..k];
    }
  }

  // ------------------------------------------------- unread over a history

  predicate NotifyingAt(ops: seq<Op>, k: nat, id: Id)
    requires k <= |ops|
  {
    Notifies(After(ops[..k]).sessions, id)
  }

  /** The reference definition: at some past step the session began to notify, it
      has notified ever since, and nobody focused it since. */
  ghost predicate RaisedUnacknowledged(ops: seq<Op>, id: Id) {
    exists k: nat :: RaisedAt(ops, k, id)
  }

  ghost predicate RaisedAt(ops: seq<Op>, k: nat, id: Id) {
    && k < |ops|
    && !NotifyingAt(ops, k, id)
    && (forall j: nat :: k < j <= |ops| ==> NotifyingAt(ops, j, id))
    && (forall j: nat :: k < j < |ops| ==> ops[j] != Focus(id))
  }

  lemma RaisedExtends(ops: seq<Op>, op: Op, id: Id)
    ensures var more := ops + [op];
      var was, now := Notifies(After(ops).sessions, id), Notifies(After(more).sessions, id);
      RaisedUnacknowledged(more, id) <==> now && (was ==> RaisedUnacknowledged(ops, id) && op != Focus(id))
  {
    hide After, Notifies;
    var more := ops + [op];
    var n := |ops|;
    assert more[..n] == ops && more[..n + 1] == more && ops[..n] == ops;
    assert forall j: nat :: j <= n ==> more[..j] == ops[..j];
    assert forall j: nat :: j <= n ==> NotifyingAt(more, j, id) == NotifyingAt(ops, j, id);
    var was, now := NotifyingAt(more, n, id), NotifyingAt(more, n + 1, id);
    if RaisedUnacknowledged(more, id) {
      var k: nat :| RaisedAt(more, k, id);
      if was {
        assert k < n;
        assert forall j: nat :: k < j < n ==> more[j] == ops[j];
        assert RaisedAt(ops, k, id);
        assert more[n] == op;
      }
    }
    if now && !was {
      assert RaisedAt(more, n, id);
    }
    if now && was && RaisedUnacknowledged(ops, id) && op != Focus(id) {
      var k: nat :| RaisedAt(ops, k, id);
      forall j: nat | k < j < |more| ensures more[j] != Focus(id) {
        if j < n { assert more[j] == ops[j]; }
      }
      assert RaisedAt(more, k, id);
    }
  }

  /** On every disciplined run the badge is exactly its history: notifying now, and
      not focused since it last began to notify, for whatever reason it began. */
  lemma {:induction false} UnreadIsHistory(ops: seq<Op>, id: Id)
    requires Disciplined(ops) && id in After(ops).sessions
    ensures After(ops).sessions[id].unread <==> RaisedUnacknowledged(ops, id)
  {
    var n := |ops| - 1;
    var prefix, op := ops[..n], ops[n];
    assert ops == prefix + [op];
    DisciplinedPrefix(ops, n);
    RunKeepsPolicy(prefix);
    StepUnread(After(prefix), op, id);
    RaisedExtends(prefix, op, id);
    if Notifies(After(prefix).sessions, id) {
      UnreadIsHistory(prefix, id);
    }
  }

  // --------------------------------------------- three notify predicates

  /** host-core's rule: a solo overrides the mute flag. */
  predicate HostNotifies(m: Sessions, id: Id) {
    id in m && m[id].rollupState == Waiting && (if AnySoloed(m) then m[id].soloed else !m[id].muted)
  }

  predicate Conflicted(m: Sessions, id: Id) {
    id in m && m[id].rollupState == Waiting && m[id].muted && m[id].soloed
  }

  /** The Hub's rule and host-core's differ exactly on a waiting session that is both
      muted and soloed. */
  lemma NotifyRulesDiffer(m: Sessions, id: Id)
    ensures Notifies(m, id) != HostNotifies(m, id) <==> Conflicted(m, id)
  {
    if id in m && m[id].soloed { assert AnySoloed(m); }
  }

  /** The engine takes an upsert's flags as they come: from any state, one new waiting
      session that arrives with both flags is such a session. */
  lemma ConflictIsReachable(h: Hub, s: Session, run: AgentRun)
    requires s.sessionId !in h.sessions && s.runs == [run] && run.state == Waiting && s.muted && s.soloed
    ensures var m' := Step(h, UpsertSession(s)).hub.sessions;
      Conflicted(m', s.sessionId) && !Notifies(m', s.sessionId) && HostNotifies(m', s.sessionId)
  {
    assert RollupState([run]) == Some(Waiting) by { assert [run][..0] == []; }
    var m' := Step(h, UpsertSession(s)).hub.sessions;
    assert m'[s.sessionId].soloed;
  }

  /** No disciplined run reaches such a session, so faces and Hub always agree. */
  lemma NotifyRulesAgree(ops: seq<Op>, id: Id)
    requires Disciplined(ops)
    ensures Notifies(After(ops).sessions, id) == HostNotifies(After(ops).sessions, id)
  {
    RunKeepsPolicy(ops);
    NotifyRulesDiffer(After(ops).sessions, id);
  }

  /** One session through a flag command: its edit, then its own edge. */
  lemma FlagStepAt(h: Hub, op: Op, id: Id)
    requires IsFlagOp(op) && id in h.sessions
    ensures var m, m' := h.sessions, Step(h, op).hub.sessions; var e := Edited(m, op);
      && m'.Keys == e.Keys == m.Keys
      && m'[id] == Rearm(e[id], Notifies(m, id), Notifies(e, id))
      && AnySoloed(m') == AnySoloed(e)
  {
    hide Notifies, ShouldNotify, AnySoloed;
    EditedUnread(h.sessions, op);
    ReconciledFlags(h.sessions, Edited(h.sessions, op));
    SameFlagsSameBit(Edited(h.sessions, op), Step(h, op).hub.sessions);
  }

  lemma UnsoloedEdit(m: Sessions, id: Id, mute: bool)
    requires id in m && !AnySoloed(m)
    ensures var e := Edited(m, if mute then Mute(id) else Unmute(id));
      id in e && e[id] == m[id].(muted := mute) && !AnySoloed(e)
  {
    assert !m[id].soloed;
  }

  /** Mute then unmute is not the identity: an acknowledged waiting session is armed
      again. */
  lemma MuteUnmuteRearms(h: Hub, id: Id)
    requires Policy(h) && Notifies(h.sessions, id) && !AnySoloed(h.sessions)
    ensures var m' := Step(Step(h, Mute(id)).hub, Unmute(id)).hub.sessions;
      id in m' && m'[id] == h.sessions[id].(unread := true)
  {
    hide Policy, AnySoloed, Step, Edited;
    var muted := Step(h, Mute(id)).hub;
    FlagStepAt(h, Mute(id), id);
    UnsoloedEdit(h.sessions, id, true);
    FlagStepAt(muted, Unmute(id), id);
    UnsoloedEdit(muted.sessions, id, false);
  }
}
