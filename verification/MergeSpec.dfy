/** The Hub's merge step as a function of state and operation, with the invariants
    every operation keeps. `MergeEngine` implements it imperatively. */
module MergeSpec {
  import opened Protocol

  type Sessions = map<Id, Session>

  /** The authoritative state: sessions by id and their insertion order. The GUI
      reducer holds a value of the same shape. */
  datatype Hub = Hub(sessions: Sessions, order: seq<Id>)

  const EmptyHub := Hub(map[], [])

  datatype Op =
    | UpsertSession(session: Session)
    | RemoveSession(sessionId: Id)
    | UpsertRun(ownerId: Id, run: AgentRun)
    | RemoveRun(ownerId: Id, runId: Id)
    | Mute(sessionId: Id)
    | Unmute(sessionId: Id)
    | Solo(sessionId: Id)
    | Focus(sessionId: Id)

  datatype Outcome = Outcome(hub: Hub, events: seq<Event>)

  // ------------------------------------------------------------ notifying

  predicate AnySoloed(m: Sessions) {
    exists id | id in m :: m[id].soloed
  }

  predicate ShouldNotify(s: Session, anySoloed: bool) {
    s.rollupState == Waiting && !s.muted && (!anySoloed || s.soloed)
  }

  predicate Notifies(m: Sessions, id: Id) {
    id in m && ShouldNotify(m[id], AnySoloed(m))
  }

  /** The edge trigger: entering the notifying set marks unread, leaving it clears. */
  function Rearm(s: Session, was: bool, now: bool): Session {
    if !was && now then s.(unread := true)
    else if was && !now then s.(unread := false)
    else s
  }

  /** Every session of `edited`, rearmed for its own edge from `before`. */
  function Reconciled(before: Sessions, edited: Sessions): Sessions {
    map id | id in edited :: Rearm(edited[id], Notifies(before, id), Notifies(edited, id))
  }

  /** One `session.updated` per listed session whose stored value changed. */
  function Updates(order: seq<Id>, before: Sessions, after: Sessions): seq<Event> {
    if order == [] then []
    else
      var rest := Updates(order[1..], before, after);
      var id := order[0];
      if id in after && (id !in before || before[id] != after[id])
      then [SessionUpdated(after[id])] + rest
      else rest
  }

  // ------------------------------------------------------------------ step

  function Without(order: seq<Id>, id: Id): seq<Id> {
    if order == [] then []
    else if order[0] == id then Without(order[1..], id)
    else [order[0]] + Without(order[1..], id)
  }

  function Edited(m: Sessions, op: Op): Sessions {
    match op
    case Mute(id) => if id in m then m[id := m[id].(muted := true, soloed := false)] else m
    case Unmute(id) => if id in m then m[id := m[id].(muted := false, soloed := false)] else m
    case Solo(id) =>
      if id !in m then m
      else map k | k in m :: if k == id then m[k].(soloed := true, muted := false) else m[k].(soloed := false)
    case _ => m
  }

  function FlagStep(h: Hub, op: Op): Outcome {
    var after := Reconciled(h.sessions, Edited(h.sessions, op));
    Outcome(Hub(after, h.order), Updates(h.order, h.sessions, after))
  }

  /** Store the session after its own edge, judged with the solo bit from before
      the operation: no other session is reconciled. */
  function Settle(m: Sessions, s: Session): Session {
    Rearm(s, Notifies(m, s.sessionId), ShouldNotify(s, AnySoloed(m)))
  }

  function Step(h: Hub, op: Op): Outcome {
    var m := h.sessions;
    match op
    case UpsertSession(s) =>
      var id := s.sessionId;
      var settled := Settle(m, Rolled(s));
      if id in m then Outcome(Hub(m[id := settled], h.order), [SessionUpdated(settled)])
      else Outcome(Hub(m[id := settled], h.order + [id]), [SessionAdded(settled)])
    case RemoveSession(id) =>
      if id !in m then Outcome(h, [])
      else
        var after := Reconciled(m, m - {id});
        var order := Without(h.order, id);
        Outcome(Hub(after, order), [Event.SessionRemoved(id)] + Updates(order, m, after))
    case UpsertRun(id, run) =>
      if id !in m then Outcome(h, [])
      else
        var settled := Settle(m, Rolled(m[id].(runs := PutRun(m[id].runs, run))));
        var runEvent := if HasRun(m[id].runs, run.runId) then RunUpdated(id, run) else RunAdded(id, run);
        Outcome(Hub(m[id := settled], h.order), [runEvent, SessionUpdated(settled)])
    case RemoveRun(id, runId) =>
      if id !in m || !HasRun(m[id].runs, runId) then Outcome(h, [])
      else
        var settled := Settle(m, Rolled(m[id].(runs := DropRun(m[id].runs, runId))));
        Outcome(Hub(m[id := settled], h.order), [RunRemoved(id, runId), SessionUpdated(settled)])
    case Focus(id) =>
      if id !in m || !m[id].unread then Outcome(h, [])
      else
        var read := m[id].(unread := false);
        Outcome(Hub(m[id := read], h.order), [SessionUpdated(read)])
    case _ => FlagStep(h, op)
  }

  /** The Hub after a whole run of operations. */
  function After(ops: seq<Op>): Hub {
    AfterFrom(EmptyHub, ops)
  }

  function AfterFrom(h: Hub, ops: seq<Op>): Hub {
    if ops == [] then h
    else Step(AfterFrom(h, ops[..|ops| - 1]), ops[|ops| - 1]).hub
  }

  // ------------------------------------------------------------- invariant

  ghost predicate Distinct(order: seq<Id>) {
    forall i, j :: 0 <= i < j < |order| ==> order[i] != order[j]
  }

  ghost predicate LockStep(m: Sessions, order: seq<Id>) {
    && Distinct(order)
    && (forall id :: id in m <==> id in order)
    && (forall id :: id in m ==> m[id].sessionId == id)
  }

  /** Order and map in lock-step, and every stored rollup is the recomputed one. */
  ghost predicate Valid(h: Hub) {
    && LockStep(h.sessions, h.order)
    && (forall id :: id in h.sessions ==> Rolled(h.sessions[id]) == h.sessions[id])
  }

  lemma RolledIgnoresFlags(s: Session, muted: bool, soloed: bool, unread: bool)
    ensures Rolled(s.(muted := muted, soloed := soloed, unread := unread))
         == Rolled(s).(muted := muted, soloed := soloed, unread := unread)
  {
  }

  lemma {:induction false} WithoutMeaning(order: seq<Id>, id: Id)
    ensures forall x :: x in Without(order, id) <==> x in order && x != id
    ensures Distinct(order) ==> Distinct(Without(order, id))
  {
    if order != [] {
      WithoutMeaning(order[1..], id);
      assert order == [order[0]] + order[1..];
      if Distinct(order) {
        assert forall i, j :: 0 <= i < j < |order[1..]| ==>
            order[1..][i] == order[i + 1] && order[1..][j] == order[j + 1];
        assert order[0] !in order[1..];
        if order[0] != id {
          assert order[0] !in Without(order[1..], id);
        }
      }
    }
  }

  lemma RearmKeepsRollup(s: Session, was: bool, now: bool)
    requires Rolled(s) == s
    ensures Rolled(Rearm(s, was, now)) == Rearm(s, was, now)
    ensures Rearm(s, was, now).sessionId == s.sessionId
  {
    RolledIgnoresFlags(s, s.muted, s.soloed, Rearm(s, was, now).unread);
  }

  lemma StoreKeepsValid(h: Hub, s: Session)
    requires Valid(h) && Rolled(s) == s
    ensures Valid(Hub(h.sessions[s.sessionId := s],
                      if s.sessionId in h.sessions then h.order else h.order + [s.sessionId]))
  {
  }

  lemma SettleKeepsValid(h: Hub, s: Session)
    requires Valid(h)
    ensures var settled := Settle(h.sessions, Rolled(s));
      Valid(Hub(h.sessions[s.sessionId := settled],
                if s.sessionId in h.sessions then h.order else h.order + [s.sessionId]))
  {
    var m := h.sessions;
    RearmKeepsRollup(Rolled(s), Notifies(m, s.sessionId), ShouldNotify(Rolled(s), AnySoloed(m)));
    StoreKeepsValid(h, Settle(m, Rolled(s)));
  }

  /** Reconciling touches nothing but unread flags. */
  lemma ReconciledKeepsValid(before: Sessions, edited: Sessions, order: seq<Id>)
    requires Valid(Hub(edited, order))
    ensures Valid(Hub(Reconciled(before, edited), order))
  {
    forall id | id in edited ensures Rolled(Reconciled(before, edited)[id]) == Reconciled(before, edited)[id]
                             ensures Reconciled(before, edited)[id].sessionId == id {
      RearmKeepsRollup(edited[id], Notifies(before, id), Notifies(edited, id));
    }
  }

  lemma EditedKeepsValid(h: Hub, op: Op)
    requires Valid(h)
    ensures Valid(Hub(Edited(h.sessions, op), h.order))
  {
    var e := Edited(h.sessions, op);
    assert e.Keys == h.sessions.Keys;
    forall id | id in e ensures Rolled(e[id]) == e[id] && e[id].sessionId == id {
      RolledIgnoresFlags(h.sessions[id], e[id].muted, e[id].soloed, e[id].unread);
    }
  }

  lemma StepKeepsValid(h: Hub, op: Op)
    requires Valid(h)
    ensures Valid(Step(h, op).hub)
  {
    var m := h.sessions;
    match op
    case UpsertSession(s) => SettleKeepsValid(h, s);
    case RemoveSession(id) =>
      if id in m {
        WithoutMeaning(h.order, id);
        ReconciledKeepsValid(m, m - {id}, Without(h.order, id));
      }
    case UpsertRun(id, run) =>
      if id in m { SettleKeepsValid(h, m[id].(runs := PutRun(m[id].runs, run))); }
    case RemoveRun(id, runId) =>
      if id in m { SettleKeepsValid(h, m[id].(runs := DropRun(m[id].runs, runId))); }
    case Focus(id) =>
      if id in m {
        RolledIgnoresFlags(m[id], m[id].muted, m[id].soloed, false);
        StoreKeepsValid(h, m[id].(unread := false));
      }
    case _ =>
      EditedKeepsValid(h, op);
      ReconciledKeepsValid(m, Edited(m, op), h.order);
  }

  lemma {:induction false} RunKeepsValid(h: Hub, ops: seq<Op>)
    requires Valid(h)
    ensures Valid(AfterFrom(h, ops))
  {
    if ops != [] {
      RunKeepsValid(h, ops[..|ops| - 1]);
      StepKeepsValid(AfterFrom(h, ops[..|ops| - 1]), ops[|ops| - 1]);
    }
  }

  /** The rollup promise in terms of meaning, for every session of every run. */
  lemma RollupsAreMostUrgent(ops: seq<Op>, id: Id)
    requires id in After(ops).sessions
    ensures var s := After(ops).sessions[id];
      && (s.runs == [] ==> s.rollupState == Idle && s.rollupUrgency == None)
      && (s.runs != [] ==> MostUrgentState(s.runs, s.rollupState))
      && (s.runs != [] && s.rollupUrgency.Some? ==>
            s.rollupUrgency.value != NoUrgency && MostUrgentUrgency(s.runs, s.rollupUrgency.value))
      && (s.rollupUrgency.None? ==> forall i :: 0 <= i < |s.runs| ==> UrgencyOf(s.runs[i]) == NoUrgency)
      && StateByCases(s.runs, s.rollupState) && UrgencyByCases(s.runs, s.rollupUrgency)
  {
    RunKeepsValid(EmptyHub, ops);
    var s := After(ops).sessions[id];
    assert Rolled(s) == s;
    RolledByCases(s);
    hide StateByCases, UrgencyByCases;
    RollupStateIsMostUrgent(s.runs);
    RollupUrgencyIsMostUrgent(s.runs);
  }

  // ------------------------------------------------- snapshot and restore

  function SnapshotOf(h: Hub): seq<Session>
    requires forall id :: id in h.order ==> id in h.sessions
  {
    seq(|h.order|, i requires 0 <= i < |h.order| => h.sessions[h.order[i]])
  }

  /** `restore`: rebuild from a list of sessions, verbatim. */
  function RestoredFrom(list: seq<Session>): Hub {
    if list == [] then EmptyHub
    else
      var last := list[|list| - 1];
      var h := RestoredFrom(list[..|list| - 1]);
      Hub(h.sessions[last.sessionId := last], h.order + [last.sessionId])
  }

  /** The slice of the Hub the first `n` ids of its order stand for. */
  function PrefixOf(h: Hub, n: nat): Hub
    requires LockStep(h.sessions, h.order) && n <= |h.order|
  {
    Hub(map id | id in h.order[..n] :: h.sessions[id], h.order[..n])
  }

  lemma PrefixGrows(h: Hub, n: nat)
    requires LockStep(h.sessions, h.order) && n < |h.order|
    ensures var id := h.order[n];
      PrefixOf(h, n + 1) == Hub(PrefixOf(h, n).sessions[id := h.sessions[id]], PrefixOf(h, n).order + [id])
  {
    assert h.order[..n + 1] == h.order[..n] + [h.order[n]];
  }

  lemma RestoredFromSnoc(list: seq<Session>, s: Session)
    ensures var h := RestoredFrom(list);
      RestoredFrom(list + [s]) == Hub(h.sessions[s.sessionId := s], h.order + [s.sessionId])
  {
    assert (list + [s])[..|list|] == list;
  }

  lemma RestoredFromNothing(h: Hub)
    requires LockStep(h.sessions, h.order)
    ensures RestoredFrom([]) == EmptyHub == PrefixOf(h, 0)
  {
  }

  lemma {:induction false} RestoredFromPrefix(h: Hub, n: nat)
    requires LockStep(h.sessions, h.order) && n <= |h.order|
    ensures RestoredFrom(SnapshotOf(h)[..n]) == PrefixOf(h, n)
  {
    hide RestoredFrom, PrefixOf;
    RestoredFromNothing(h);
    if n > 0 {
      RestoredFromPrefix(h, n - 1);
      PrefixGrows(h, n - 1);
      var last := h.sessions[h.order[n - 1]];
      RestoredFromSnoc(SnapshotOf(h)[..n - 1], last);
      assert SnapshotOf(h)[..n] == SnapshotOf(h)[..n - 1] + [last];
    }
  }

  /** A snapshot loses nothing: restoring it rebuilds the very same Hub, so it
      undoes any operation applied in between. */
  lemma RestoreUndoes(h: Hub, op: Op)
    requires Valid(h)
    ensures RestoredFrom(SnapshotOf(h)) == h
    ensures Step(RestoredFrom(SnapshotOf(h)), op) == Step(h, op)
  {
    var n := |h.order|;
    hide Step, RestoredFrom, Rolled;
    RestoredFromPrefix(h, n);
    assert SnapshotOf(h)[..n] == SnapshotOf(h);
    assert h.order[..n] == h.order;
    assert PrefixOf(h, n).sessions == h.sessions;
  }

  // ------------------------------------------------------- delta exactness

  predicate Changed(id: Id, before: Sessions, after: Sessions) {
    id in after && (id !in before || before[id] != after[id])
  }

  /** `at` lists, in increasing order, exactly the slots whose session changed, and
      the events carry those sessions' new values. */
  ghost predicate DeltaAt(at: seq<nat>, events: seq<Event>, order: seq<Id>, before: Sessions, after: Sessions) {
    && |at| == |events|
    && (forall k :: 0 <= k < |at| ==> at[k] < |order| && Changed(order[at[k]], before, after))
    && (forall k :: 0 <= k < |at| ==> events[k] == SessionUpdated(after[order[at[k]]]))
    && (forall k, l :: 0 <= k < l < |at| ==> at[k] < at[l])
    && (forall i: nat :: i < |order| && Changed(order[i], before, after) ==> i in at)
  }

  /** The meaning of an update list: it names exactly the listed sessions whose
      stored value changed, each once, in list order, with the new value. */
  ghost predicate ExactDelta(events: seq<Event>, order: seq<Id>, before: Sessions, after: Sessions) {
    exists at :: DeltaAt(at, events, order, before, after)
  }

  function Shifted(at: seq<nat>): (shifted: seq<nat>)
    ensures |shifted| == |at| && forall k :: 0 <= k < |at| ==> shifted[k] == at[k] + 1
  {
    seq(|at|, k requires 0 <= k < |at| => at[k] + 1)
  }

  function ZeroThenShifted(at: seq<nat>): (grown: seq<nat>)
    ensures |grown| == |at| + 1 && grown[0] == 0
    ensures forall k :: 1 <= k < |grown| ==> grown[k] == at[k - 1] + 1
  {
    seq(|at| + 1, k requires 0 <= k <= |at| => if k == 0 then 0 else at[k - 1] + 1)
  }

  lemma ConsEntries(e: Event, events: seq<Event>)
    ensures forall k :: 1 <= k < |[e] + events| ==> ([e] + events)[k] == events[k - 1]
  {
  }

  /** A delta of the tail, read as one of the whole list whose head is unchanged. */
  lemma DeltaSkips(at: seq<nat>, events: seq<Event>, order: seq<Id>, before: Sessions, after: Sessions)
    requires order != [] && !Changed(order[0], before, after)
    requires DeltaAt(at, events, order[1..], before, after)
    ensures DeltaAt(Shifted(at), events, order, before, after)
  {
    hide Changed;
    var shifted := Shifted(at);
    forall i: nat | i < |order| && Changed(order[i], before, after) ensures i in shifted {
      var k :| 0 <= k < |at| && at[k] == i - 1;
      assert shifted[k] == i;
    }
  }

  lemma GrownIncreases(at: seq<nat>)
    requires forall k, l :: 0 <= k < l < |at| ==> at[k] < at[l]
    ensures forall k, l :: 0 <= k < l < |ZeroThenShifted(at)| ==> ZeroThenShifted(at)[k] < ZeroThenShifted(at)[l]
  {
    var grown := ZeroThenShifted(at);
    forall k, l | 0 <= k < l < |grown| ensures grown[k] < grown[l] {
      if k > 0 { assert at[k - 1] < at[l - 1]; }
    }
  }

  lemma GrownCovers(at: seq<nat>, i: nat)
    requires i > 0 ==> i - 1 in at
    ensures i in ZeroThenShifted(at)
  {
    if i > 0 {
      var k :| 0 <= k < |at| && at[k] == i - 1;
      assert ZeroThenShifted(at)[k + 1] == i;
    } else {
      assert ZeroThenShifted(at)[0] == i;
    }
  }

  /** The same with a changed head put in front. */
  lemma DeltaTakes(at: seq<nat>, events: seq<Event>, order: seq<Id>, before: Sessions, after: Sessions,
      more: seq<Event>)
    requires order != [] && Changed(order[0], before, after)
    requires DeltaAt(at, events, order[1..], before, after)
    requires |more| == |events| + 1 && more[0] == SessionUpdated(after[order[0]])
    requires forall k :: 1 <= k < |more| ==> more[k] == events[k - 1]
    ensures DeltaAt(ZeroThenShifted(at), more, order, before, after)
  {
    var tail, grown := order[1..], ZeroThenShifted(at);
    GrownIncreases(at);
    forall k | 0 <= k < |grown|
      ensures grown[k] < |order| && Changed(order[grown[k]], before, after) &&
          more[k] == SessionUpdated(after[order[grown[k]]]) {
      if k > 0 {
        assert tail[at[k - 1]] == order[grown[k]];
      }
    }
    hide Changed, ZeroThenShifted;
    forall i: nat | i < |order| && Changed(order[i], before, after) ensures i in grown {
      assert i > 0 ==> tail[i - 1] == order[i];
      GrownCovers(at, i);
    }
  }

  lemma {:induction false} UpdatesAreExact(order: seq<Id>, before: Sessions, after: Sessions)
    ensures ExactDelta(Updates(order, before, after), order, before, after)
  {
    if order == [] {
      assert DeltaAt([], [], order, before, after);
    } else {
      UpdatesAreExact(order[1..], before, after);
      var events := Updates(order[1..], before, after);
      var at :| DeltaAt(at, events, order[1..], before, after);
      hide DeltaAt, Shifted, ZeroThenShifted;
      if Changed(order[0], before, after) {
        var head := SessionUpdated(after[order[0]]);
        ConsEntries(head, events);
        DeltaTakes(at, events, order, before, after, [head] + events);
      } else {
        DeltaSkips(at, events, order, before, after);
      }
    }
  }

  predicate IsFlagOp(op: Op) { op.Mute? || op.Unmute? || op.Solo? }

  /** Flag commands broadcast exactly the changed sessions; a removal broadcasts
      the removal first and then exactly the changed survivors. */
  lemma DeltasAreExact(h: Hub, op: Op)
    requires Valid(h) && (IsFlagOp(op) || op.RemoveSession?)
    ensures IsFlagOp(op) ==>
      ExactDelta(Step(h, op).events, h.order, h.sessions, Step(h, op).hub.sessions)
    ensures op.RemoveSession? && op.sessionId in h.sessions ==>
      && |Step(h, op).events| > 0
      && Step(h, op).events[0] == Event.SessionRemoved(op.sessionId)
      && ExactDelta(Step(h, op).events[1..], Step(h, op).hub.order, h.sessions, Step(h, op).hub.sessions)
    ensures op.RemoveSession? && op.sessionId !in h.sessions ==> Step(h, op) == Outcome(h, [])
  {
    UpdatesAreExact(Step(h, op).hub.order, h.sessions, Step(h, op).hub.sessions);
    if op.RemoveSession? && op.sessionId in h.sessions {
      assert Step(h, op).events[1..] == Updates(Step(h, op).hub.order, h.sessions, Step(h, op).hub.sessions);
    }
  }

  lemma {:induction false} NoChangeNoUpdates(order: seq<Id>, m: Sessions)
    ensures Updates(order, m, m) == []
  {
    if order != [] {
      NoChangeNoUpdates(order[1..], m);
    }
  }

  lemma ReconciledSame(m: Sessions)
    ensures Reconciled(m, m) == m
  {
  }

  lemma FlagStepSettled(h: Hub, op: Op)
    requires IsFlagOp(op) && Edited(h.sessions, op) == h.sessions
    ensures Step(h, op) == Outcome(h, [])
  {
    ReconciledSame(h.sessions);
    NoChangeNoUpdates(h.order, h.sessions);
  }

  lemma ReconciledFlags(before: Sessions, edited: Sessions)
    ensures var after := Reconciled(before, edited);
      && after.Keys == edited.Keys
      && forall id :: id in edited ==> after[id].soloed == edited[id].soloed && after[id].muted == edited[id].muted
  {
    hide Notifies;
  }

  lemma EditedTwice(m: Sessions, op: Op)
    requires IsFlagOp(op)
    ensures var after := Reconciled(m, Edited(m, op)); Edited(after, op) == after
  {
    hide Reconciled;
    var e := Edited(m, op);
    var after := Reconciled(m, e);
    ReconciledFlags(m, e);
    forall id | id in after ensures Edited(after, op)[id] == after[id] {
    }
  }

  /** Repeating a mute, unmute, solo, focus or removal changes nothing and says
      nothing. */
  lemma RepeatIsSilent(h: Hub, op: Op)
    requires Valid(h) && (IsFlagOp(op) || op.Focus? || op.RemoveSession?)
    ensures var once := Step(h, op).hub; Step(once, op) == Outcome(once, [])
  {
    if IsFlagOp(op) {
      EditedTwice(h.sessions, op);
      FlagStepSettled(Step(h, op).hub, op);
    }
  }
}
