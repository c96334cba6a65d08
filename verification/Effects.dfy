/** What each operation leaves at the Hub, field by field: the reported values, the flags it
    sets, the rollups by cases, and everything it does not touch. */
module Effects {
  import opened Protocol
  import opened MergeSpec
  import opened Attention

  // ------------------------------------------------------------- run lists

  predicate FirstAt(runs: seq<AgentRun>, runId: Id, i: int) {
    0 <= i < |runs| && runs[i].runId == runId && forall j :: 0 <= j < i ==> runs[j].runId != runId
  }

  lemma FirstAtTail(runs: seq<AgentRun>, runId: Id, i: int)
    requires runs != [] && runs[0].runId != runId
    ensures FirstAt(runs, runId, i) <==> FirstAt(runs[1..], runId, i - 1)
  {
    assert forall j :: 1 <= j < |runs| ==> runs[1..][j - 1] == runs[j];
    if FirstAt(runs[1..], runId, i - 1) {
      forall j | 0 <= j < i ensures runs[j].runId != runId {
        if j > 0 { assert runs[1..][j - 1].runId != runId; }
      }
    }
  }

  /** A held run is replaced in its slot, the others staying where they are; a new one goes
      to the end. */
  ghost predicate RunPlaced(before: seq<AgentRun>, run: AgentRun, after: seq<AgentRun>) {
    && ((exists i :: FirstAt(before, run.runId, i)) ==>
          exists i :: FirstAt(before, run.runId, i) && after == before[i := run])
    && ((forall i :: !FirstAt(before, run.runId, i)) ==> after == before + [run])
  }

  lemma {:induction false} PutRunPlaces(runs: seq<AgentRun>, run: AgentRun)
    ensures RunPlaced(runs, run, PutRun(runs, run))
  {
    if runs == [] {
    } else if runs[0].runId == run.runId {
      assert FirstAt(runs, run.runId, 0) && PutRun(runs, run) == runs[0 := run];
    } else {
      var rest := runs[1..];
      PutRunPlaces(rest, run);
      forall i { FirstAtTail(runs, run.runId, i); }
      hide FirstAt;
      if i :| FirstAt(rest, run.runId, i) {
        var k :| FirstAt(rest, run.runId, k) && PutRun(rest, run) == rest[k := run];
        assert FirstAt(runs, run.runId, k + 1);
        SlotOfTail(runs, rest, run, k);
      } else {
        assert PutRun(runs, run) == [runs[0]] + (rest + [run]);
      }
    }
  }

  lemma SlotOfTail(runs: seq<AgentRun>, rest: seq<AgentRun>, run: AgentRun, k: int)
    requires runs != [] && rest == runs[1..] && FirstAt(rest, run.runId, k)
    ensures 0 <= k + 1 < |runs| && [runs[0]] + rest[k := run] == runs[k + 1 := run]
  {
  }

  lemma {:induction false} HeldIsFirst(runs: seq<AgentRun>, runId: Id)
    ensures HasRun(runs, runId) <==> exists i :: FirstAt(runs, runId, i)
  {
    if HasRun(runs, runId) && runs[0].runId != runId {
      var rest := runs[1..];
      var i :| 0 <= i < |runs| && runs[i].runId == runId;
      assert rest[i - 1].runId == runId;
      HeldIsFirst(rest, runId);
      var k :| FirstAt(rest, runId, k);
      FirstAtTail(runs, runId, k + 1);
    } else if HasRun(runs, runId) {
      assert FirstAt(runs, runId, 0);
    }
  }

  /** `at` lists, in order, the slots of the runs under other ids: these are what is left. */
  ghost predicate LeftAt(at: seq<nat>, before: seq<AgentRun>, runId: Id, after: seq<AgentRun>) {
    && |at| == |after|
    && (forall k :: 0 <= k < |at| ==> at[k] < |before| && after[k] == before[at[k]] && before[at[k]].runId != runId)
    && (forall k, l :: 0 <= k < l < |at| ==> at[k] < at[l])
    && (forall i: nat :: i < |before| && before[i].runId != runId ==> i in at)
  }

  ghost predicate RunDropped(before: seq<AgentRun>, runId: Id, after: seq<AgentRun>) {
    exists at :: LeftAt(at, before, runId, after)
  }

  lemma ShiftedCovers(at: seq<nat>, i: nat)
    requires i > 0 && i - 1 in at
    ensures i in Shifted(at)
  {
    var k :| 0 <= k < |at| && at[k] == i - 1;
    assert Shifted(at)[k] == i;
  }

  lemma LeftSkips(at: seq<nat>, before: seq<AgentRun>, runId: Id, after: seq<AgentRun>)
    requires before != [] && before[0].runId == runId && LeftAt(at, before[1..], runId, after)
    ensures LeftAt(Shifted(at), before, runId, after)
  {
    var tail, shifted := before[1..], Shifted(at);
    forall k | 0 <= k < |at| ensures shifted[k] < |before| && tail[at[k]] == before[shifted[k]] {
    }
    hide Shifted;
    forall i: nat | i < |before| && before[i].runId != runId ensures i in shifted {
      assert tail[i - 1] == before[i];
      ShiftedCovers(at, i);
    }
  }

  lemma LeftKeeps(at: seq<nat>, before: seq<AgentRun>, runId: Id, after: seq<AgentRun>, more: seq<AgentRun>)
    requires before != [] && before[0].runId != runId && LeftAt(at, before[1..], runId, after)
    requires |more| == |after| + 1 && more[0] == before[0] && forall k :: 1 <= k < |more| ==> more[k] == after[k - 1]
    ensures LeftAt(ZeroThenShifted(at), before, runId, more)
  {
    var tail, grown := before[1..], ZeroThenShifted(at);
    GrownIncreases(at);
    forall k | 0 <= k < |grown|
      ensures grown[k] < |before| && more[k] == before[grown[k]] && before[grown[k]].runId != runId {
      if k > 0 { assert tail[at[k - 1]] == before[grown[k]]; }
    }
    hide ZeroThenShifted;
    forall i: nat | i < |before| && before[i].runId != runId ensures i in grown {
      assert i > 0 ==> tail[i - 1] == before[i];
      GrownCovers(at, i);
    }
  }

  lemma {:induction false} DropRunLeaves(runs: seq<AgentRun>, runId: Id)
    ensures RunDropped(runs, runId, DropRun(runs, runId))
  {
    hide LeftAt, Shifted, ZeroThenShifted;
    if runs == [] {
      NothingLeft(runId);
    } else {
      DropRunLeaves(runs[1..], runId);
      var at :| LeftAt(at, runs[1..], runId, DropRun(runs[1..], runId));
      if runs[0].runId == runId {
        LeftSkips(at, runs, runId, DropRun(runs[1..], runId));
      } else {
        var left := DropRun(runs[1..], runId);
        LeftKeeps(at, runs, runId, left, [runs[0]] + left);
      }
    }
  }

  lemma NothingLeft(runId: Id)
    ensures LeftAt([], [], runId, [])
  {
  }

  // ----------------------------------------------------- one stored session

  /** The rollups say what the runs say. */
  predicate SpeaksForRuns(t: Session) {
    StateByCases(t.runs, t.rollupState) && UrgencyByCases(t.runs, t.rollupUrgency)
  }

  /** The badge moves with the session's own notifying: raised when that starts, cleared
      when it stops, and otherwise as it was. */
  predicate BadgeMoved(m: Sessions, m': Sessions, id: Id, badge: bool, t: Session) {
    t.unread == if Notifies(m, id) == Notifies(m', id) then badge else Notifies(m', id)
  }

  /** Everybody but `id` is as before. */
  ghost predicate OthersStand(m: Sessions, m': Sessions, id: Id) {
    forall k :: k != id ==> (k in m <==> k in m') && (k in m ==> m'[k] == m[k])
  }

  lemma SettledWell(m: Sessions, s: Session)
    ensures var m' := m[s.sessionId := Settle(m, Rolled(s))]; var t := m'[s.sessionId];
      && t == s.(rollupState := t.rollupState, rollupUrgency := t.rollupUrgency, unread := t.unread)
      && SpeaksForRuns(t)
      && (s.sessionId !in m || s.soloed == m[s.sessionId].soloed ==> BadgeMoved(m, m', s.sessionId, s.unread, t))
  {
    RolledByCases(s);
    hide Rolled, StateByCases, UrgencyByCases;
    var t := Settle(m, Rolled(s));
    var m' := m[s.sessionId := t];
    assert t == Rolled(s).(unread := t.unread);
    if s.sessionId !in m || s.soloed == m[s.sessionId].soloed {
      if s.soloed && s.sessionId !in m {
        assert m'[s.sessionId].soloed;
        assert AnySoloed(m');
      } else {
        SameSoloSameBit(m, s.sessionId, t);
      }
      hide AnySoloed;
    }
  }

  // ------------------------------------------------------------ operations

  /** An upsert stores what was reported, flags included, under its id; a new session goes
      to the end of the order. The badge is judged with the solo bit from before, so for a
      held session it moves with the notifying if the report repeats the solo flag. */
  lemma UpsertLands(h: Hub, s: Session)
    ensures var id, h' := s.sessionId, Step(h, UpsertSession(s)).hub;
      && id in h'.sessions
      && (var t := h'.sessions[id];
          && t.sessionId == id && t.title == s.title && t.runs == s.runs && t.details == s.details
          && t.muted == s.muted && t.soloed == s.soloed && SpeaksForRuns(t)
          && ((id in h.sessions ==> s.soloed == h.sessions[id].soloed) ==>
                BadgeMoved(h.sessions, h'.sessions, id, s.unread, t)))
      && OthersStand(h.sessions, h'.sessions, id)
      && h'.order == (if id in h.sessions then h.order else h.order + [id])
  {
    SettledWell(h.sessions, s);
    hide Rolled, Settle, BadgeMoved, SpeaksForRuns;
  }

  /** A run report changes the one run list it names. */
  lemma RunLands(h: Hub, id: Id, run: AgentRun)
    requires id in h.sessions && h.sessions[id].sessionId == id
    ensures var s, h' := h.sessions[id], Step(h, UpsertRun(id, run)).hub;
      && id in h'.sessions
      && (var t := h'.sessions[id];
          && RunPlaced(s.runs, run, t.runs)
          && t.title == s.title && t.details == s.details && t.muted == s.muted && t.soloed == s.soloed
          && SpeaksForRuns(t) && BadgeMoved(h.sessions, h'.sessions, id, s.unread, t)
          && Step(h, UpsertRun(id, run)).events ==
               [if exists i :: FirstAt(s.runs, run.runId, i) then RunUpdated(id, run) else RunAdded(id, run),
                SessionUpdated(t)])
      && OthersStand(h.sessions, h'.sessions, id) && h'.order == h.order
  {
    var s := h.sessions[id];
    PutRunPlaces(s.runs, run);
    HeldIsFirst(s.runs, run.runId);
    SettledWell(h.sessions, s.(runs := PutRun(s.runs, run)));
    hide Rolled, Settle, BadgeMoved, SpeaksForRuns, PutRun, HasRun, FirstAt, RunPlaced;
  }

  /** A removed run takes every run under its id along, and nothing else. */
  lemma RunGoes(h: Hub, id: Id, runId: Id)
    requires id in h.sessions && h.sessions[id].sessionId == id
    ensures var s, out := h.sessions[id], Step(h, RemoveRun(id, runId));
      if forall i :: !FirstAt(s.runs, runId, i) then out == Outcome(h, [])
      else
        && id in out.hub.sessions
        && (var t := out.hub.sessions[id];
            && RunDropped(s.runs, runId, t.runs)
            && t.title == s.title && t.details == s.details && t.muted == s.muted && t.soloed == s.soloed
            && SpeaksForRuns(t) && BadgeMoved(h.sessions, out.hub.sessions, id, s.unread, t)
            && out.events == [RunRemoved(id, runId), SessionUpdated(t)])
        && OthersStand(h.sessions, out.hub.sessions, id) && out.hub.order == h.order
  {
    var s := h.sessions[id];
    DropRunLeaves(s.runs, runId);
    HeldIsFirst(s.runs, runId);
    SettledWell(h.sessions, s.(runs := DropRun(s.runs, runId)));
    hide Rolled, Settle, BadgeMoved, SpeaksForRuns, DropRun, HasRun, FirstAt, RunDropped;
  }

  /** The flags a command leaves on a session. */
  predicate FlagsAfter(op: Op, k: Id, s: Session, t: Session)
    requires IsFlagOp(op)
  {
    match op
    case Mute(id) => if k == id then t.muted && !t.soloed else t.muted == s.muted && t.soloed == s.soloed
    case Unmute(id) => if k == id then !t.muted && !t.soloed else t.muted == s.muted && t.soloed == s.soloed
    case Solo(id) => if k == id then t.soloed && !t.muted else !t.soloed && t.muted == s.muted
  }

  lemma EditedFlags(m: Sessions, op: Op, k: Id)
    requires IsFlagOp(op) && op.sessionId in m && k in m
    ensures var e := Edited(m, op);
      e.Keys == m.Keys && e[k] == m[k].(muted := e[k].muted, soloed := e[k].soloed) && FlagsAfter(op, k, m[k], e[k])
  {
  }

  lemma ReconciledBadge(m: Sessions, e: Sessions, k: Id)
    requires k in e && k in m && e[k].unread == m[k].unread
    ensures var m' := Reconciled(m, e);
      && m'.Keys == e.Keys && m'[k] == e[k].(unread := m'[k].unread) && BadgeMoved(m, m', k, m[k].unread, m'[k])
  {
    var m' := Reconciled(m, e);
    SameFlagsSameBit(e, m');
    hide AnySoloed;
  }

  /** A flag command on a held session sets its flags and, for a solo, clears the others';
      every badge moves with its own session's notifying; nothing else changes. */
  lemma FlagsLand(h: Hub, op: Op, k: Id)
    requires IsFlagOp(op) && op.sessionId in h.sessions && k in h.sessions
    ensures var s, h' := h.sessions[k], Step(h, op).hub;
      && h'.sessions.Keys == h.sessions.Keys && h'.order == h.order
      && (var t := h'.sessions[k];
          && t == s.(muted := t.muted, soloed := t.soloed, unread := t.unread)
          && FlagsAfter(op, k, s, t) && BadgeMoved(h.sessions, h'.sessions, k, s.unread, t))
  {
    hide Edited, Reconciled, BadgeMoved, Updates;
    EditedFlags(h.sessions, op, k);
    ReconciledBadge(h.sessions, Edited(h.sessions, op), k);
  }

  /** The removal of a held session takes it out of map and order; every survivor keeps
      everything but a badge that moved with its own notifying. */
  lemma SessionGoes(h: Hub, id: Id, k: Id)
    requires LockStep(h.sessions, h.order) && id in h.sessions
    ensures var h' := Step(h, RemoveSession(id)).hub;
      && h'.sessions.Keys == h.sessions.Keys - {id}
      && (forall x :: x in h'.order <==> x in h.order && x != id)
      && (k in h'.sessions ==>
            var s, t := h.sessions[k], h'.sessions[k];
            t == s.(unread := t.unread) && BadgeMoved(h.sessions, h'.sessions, k, s.unread, t))
  {
    hide Reconciled, BadgeMoved, Updates, Without;
    WithoutMeaning(h.order, id);
    if k in h.sessions && k != id {
      ReconciledBadge(h.sessions, h.sessions - {id}, k);
    } else {
      ReconciledKeys(h.sessions, h.sessions - {id});
    }
  }

  lemma ReconciledKeys(m: Sessions, e: Sessions)
    ensures Reconciled(m, e).Keys == e.Keys
  {
  }

  /** An acknowledgement clears one badge. */
  lemma FocusLands(h: Hub, id: Id)
    requires id in h.sessions
    ensures var h' := Step(h, Focus(id)).hub;
      h'.order == h.order && h'.sessions == h.sessions[id := h.sessions[id].(unread := false)]
  {
    if !h.sessions[id].unread {
      assert h.sessions[id := h.sessions[id].(unread := false)] == h.sessions;
    }
  }
}
