/** The Hub server's one serialization point: mutations commit, publish and broadcast
    together, and a face joins by reading the published snapshot. */
module Server {
  import opened Protocol
  import opened MergeSpec
  import opened Faces
  import opened Persist

  /** `faces` holds, per subscriber, the model folded from everything it was sent. */
  datatype HubServer = HubServer(store: Store, published: seq<Session>, faces: map<nat, Hub>)

  const Started := HubServer(Fresh, [], map[])

  datatype ServerStep =
    | Subscribe(face: nat)
    | Mutate(op: Op, room: nat)
    | CollectGarbage(removals: seq<Op>, room: nat)

  predicate IsRemoval(op: Op) { op.RemoveSession? || op.RemoveRun? }

  /** Apply a batch in order, stopping at the first failed append. */
  function ApplyBatch(st: Store, ops: seq<Op>, room: nat): Result
    decreases |ops|
  {
    if ops == [] then Result(st, [], false)
    else
      var head := Apply(st, ops[0], room);
      if head.failed then head
      else
        var rest := ApplyBatch(head.store, ops[1..], if |head.store.log| > |st.log| then Less(room) else room);
        rest.(events := head.events + rest.events)
  }

  function Less(room: nat): nat { if room == 0 then 0 else room - 1 }

  /** On success publish the new snapshot and broadcast; on an error do neither. */
  function Committed(s: HubServer, r: Result): HubServer
    requires LockStep(r.store.hub.sessions, r.store.hub.order)
  {
    if r.failed then s.(store := r.store)
    else HubServer(r.store, SnapshotOf(r.store.hub), map f | f in s.faces :: GuiApplyAll(s.faces[f], r.events))
  }

  ghost predicate Running(s: HubServer) { Valid(s.store.hub) }

  ghost predicate InSync(s: HubServer) {
    && Running(s)
    && s.published == SnapshotOf(s.store.hub)
    && forall f :: f in s.faces ==> s.faces[f] == s.store.hub
  }

  /** A store operation either fails, leaving the Hub alone and saying nothing, or is
      the engine's step on the stored operation, events included. */
  lemma ApplyIsStep(st: Store, op: Op, room: nat)
    ensures var r := Apply(st, op, room);
      if r.failed then r.store.hub == st.hub && r.events == []
      else Step(st.hub, StoredOp(st.hub.sessions, op)) == Outcome(r.store.hub, r.events)
  {
    if op.Focus? && op.sessionId in st.hub.sessions && st.hub.sessions[op.sessionId].unread {
      assert Step(st.hub, op).events != [];
    }
  }

  lemma ApplyFollows(st: Store, op: Op, room: nat)
    requires Valid(st.hub)
    ensures var r := Apply(st, op, room);
      && Valid(r.store.hub)
      && (r.failed ==> r.events == [] && r.store.hub == st.hub)
      && GuiApplyAll(st.hub, r.events) == r.store.hub
  {
    var stored := StoredOp(st.hub.sessions, op);
    ApplyIsStep(st, op, room);
    StepKeepsValid(st.hub, stored);
    FacesFollowStep(st.hub, stored);
  }

  lemma {:induction false} BatchFollows(st: Store, ops: seq<Op>, room: nat)
    requires Valid(st.hub)
    ensures var r := ApplyBatch(st, ops, room);
      Valid(r.store.hub) && (!r.failed ==> GuiApplyAll(st.hub, r.events) == r.store.hub)
    decreases |ops|
  {
    if ops != [] {
      ApplyFollows(st, ops[0], room);
      var head := Apply(st, ops[0], room);
      if !head.failed {
        var left := if |head.store.log| > |st.log| then Less(room) else room;
        BatchFollows(head.store, ops[1..], left);
        GuiApplyAllConcat(st.hub, head.events, ApplyBatch(head.store, ops[1..], left).events);
      }
    }
  }

  function ServerNext(s: HubServer, step: ServerStep): HubServer
    requires Running(s)
  {
    match step
    case Subscribe(f) => s.(faces := s.faces[f := GuiApply(EmptyHub, Snapshot(s.published))])
    case Mutate(op, room) =>
      ApplyFollows(s.store, op, room);
      Committed(s, Apply(s.store, op, room))
    case CollectGarbage(removals, room) =>
      BatchFollows(s.store, removals, room);
      Committed(s, ApplyBatch(s.store, removals, room))
  }

  // ------------------------------------------- partial garbage collection

  /** The removal has taken effect: its target is not there. */
  predicate Gone(m: Sessions, op: Op)
    requires IsRemoval(op)
  {
    match op
    case RemoveSession(id) => id !in m
    case RemoveRun(id, runId) => id !in m || !HasRun(m[id].runs, runId)
  }

  lemma {:induction false} DropRunKeepsAbsent(runs: seq<AgentRun>, drop: Id, id: Id)
    requires !HasRun(runs, id)
    ensures !HasRun(DropRun(runs, drop), id)
  {
    if runs != [] {
      assert forall i :: 0 <= i < |runs[1..]| ==> runs[1..][i] == runs[i + 1];
      DropRunKeepsAbsent(runs[1..], drop, id);
    }
  }

  lemma {:induction false} DropRunDrops(runs: seq<AgentRun>, id: Id)
    ensures !HasRun(DropRun(runs, id), id)
  {
    if runs != [] {
      DropRunDrops(runs[1..], id);
    }
  }

  lemma RemovalKeepsGone(st: Store, op: Op, gone: Op, room: nat)
    requires IsRemoval(op) && IsRemoval(gone) && Gone(st.hub.sessions, gone)
    ensures Gone(Apply(st, op, room).store.hub.sessions, gone)
  {
    if gone.RemoveRun? && op.RemoveRun? && gone.ownerId in st.hub.sessions {
      DropRunKeepsAbsent(st.hub.sessions[gone.ownerId].runs, op.runId, gone.runId);
    }
  }

  lemma RemovalTakesEffect(st: Store, op: Op, room: nat)
    requires IsRemoval(op)
    ensures var st' := Apply(st, op, room).store;
      if st'.log == st.log then st' == st
      else !Gone(st.hub.sessions, op) && Gone(st'.hub.sessions, op) && |st'.log| == |st.log| + 1
  {
    if op.RemoveRun? && op.ownerId in st.hub.sessions {
      DropRunDrops(st.hub.sessions[op.ownerId].runs, op.runId);
    }
  }

  lemma {:induction false} BatchKeepsGone(st: Store, ops: seq<Op>, gone: Op, room: nat)
    requires forall k :: 0 <= k < |ops| ==> IsRemoval(ops[k])
    requires IsRemoval(gone) && Gone(st.hub.sessions, gone)
    ensures Gone(ApplyBatch(st, ops, room).store.hub.sessions, gone)
    decreases |ops|
  {
    if ops != [] {
      RemovalKeepsGone(st, ops[0], gone, room);
      var head := Apply(st, ops[0], room);
      if !head.failed {
        BatchKeepsGone(head.store, ops[1..], gone, if |head.store.log| > |st.log| then Less(room) else room);
      }
    }
  }

  lemma {:induction false} BatchLogOnlyGrows(st: Store, ops: seq<Op>, room: nat)
    requires forall k :: 0 <= k < |ops| ==> IsRemoval(ops[k])
    ensures |ApplyBatch(st, ops, room).store.log| >= |st.log|
    decreases |ops|
  {
    if ops != [] {
      RemovalTakesEffect(st, ops[0], room);
      var head := Apply(st, ops[0], room);
      if !head.failed {
        BatchLogOnlyGrows(head.store, ops[1..], if |head.store.log| > |st.log| then Less(room) else room);
      }
    }
  }

  /** A batch of removals changes the Hub exactly when it wrote a row. */
  lemma {:induction false} BatchEffect(st: Store, ops: seq<Op>, room: nat)
    requires forall k :: 0 <= k < |ops| ==> IsRemoval(ops[k])
    ensures var st' := ApplyBatch(st, ops, room).store;
      (st'.hub == st.hub <==> st'.log == st.log) && (st'.log == st.log ==> st' == st)
    decreases |ops|
  {
    if ops != [] {
      RemovalTakesEffect(st, ops[0], room);
      var head := Apply(st, ops[0], room);
      if !head.failed {
        var left := if |head.store.log| > |st.log| then Less(room) else room;
        if head.store.log == st.log {
          BatchEffect(head.store, ops[1..], left);
        } else {
          BatchKeepsGone(head.store, ops[1..], ops[0], left);
          BatchLogOnlyGrows(head.store, ops[1..], left);
        }
      }
    }
  }

  // ------------------------------------------------- what a batch will write

  /** How many rows the removals would write on a healthy disk, read off the Hub before
      the call: a target that is already gone costs none. */
  function RowsNeeded(h: Hub, removals: seq<Op>): nat
    requires forall k :: 0 <= k < |removals| ==> IsRemoval(removals[k])
    decreases |removals|
  {
    if removals == [] then 0
    else if Gone(h.sessions, removals[0]) then RowsNeeded(h, removals[1..])
    else 1 + RowsNeeded(Step(h, removals[0]).hub, removals[1..])
  }

  lemma RemovalApplies(st: Store, op: Op, room: nat)
    requires IsRemoval(op)
    ensures Gone(st.hub.sessions, op) ==> Apply(st, op, room) == Result(st, [], false)
    ensures !Gone(st.hub.sessions, op) && room == 0 ==> Apply(st, op, room) == Result(st, [], true)
    ensures !Gone(st.hub.sessions, op) && room > 0 ==>
      var r := Apply(st, op, room);
      !r.failed && |r.store.log| == |st.log| + 1 && r.store.hub == Step(st.hub, op).hub
  {
    hide Step;
  }

  /** A batch fails exactly when it needs more rows than there is room for, and it
      writes as many as fit. */
  lemma {:induction false} BatchMeetsDisk(st: Store, removals: seq<Op>, room: nat)
    requires forall k :: 0 <= k < |removals| ==> IsRemoval(removals[k])
    ensures var r := ApplyBatch(st, removals, room); var n := RowsNeeded(st.hub, removals);
      && (r.failed <==> room < n)
      && |r.store.log| == |st.log| + (if room < n then room else n)
      && (r.store.log == st.log <==> room == 0 || n == 0)
    decreases |removals|
  {
    hide Apply, Step, Gone;
    if removals != [] {
      RemovalApplies(st, removals[0], room);
      var head := Apply(st, removals[0], room);
      if !head.failed {
        BatchMeetsDisk(head.store, removals[1..], if |head.store.log| > |st.log| then Less(room) else room);
      }
    }
  }

  /** Carrying out `a` leaves the target of `b` in place. */
  predicate Spares(a: Op, b: Op)
    requires IsRemoval(a) && IsRemoval(b)
  {
    match b
    case RemoveSession(id) => a.RemoveSession? ==> a.sessionId != id
    case RemoveRun(id, runId) =>
      if a.RemoveSession? then a.sessionId != id else a.ownerId != id || a.runId != runId
  }

  /** Distinct targets, all present, and no run of a session already swept: what one
      collection pass puts together. */
  ghost predicate Independent(m: Sessions, removals: seq<Op>) {
    && (forall k :: 0 <= k < |removals| ==> IsRemoval(removals[k]) && !Gone(m, removals[k]))
    && (forall j, k :: 0 <= j < k < |removals| ==> Spares(removals[j], removals[k]))
  }

  lemma {:induction false} DropRunSpares(runs: seq<AgentRun>, drop: Id, id: Id)
    requires HasRun(runs, id) && id != drop
    ensures HasRun(DropRun(runs, drop), id)
  {
    if runs != [] {
      if runs[0].runId == id {
        assert DropRun(runs, drop)[0] == runs[0];
      } else {
        var i :| 0 <= i < |runs| && runs[i].runId == id;
        assert runs[1..][i - 1] == runs[i];
        DropRunSpares(runs[1..], drop, id);
        var rest := DropRun(runs[1..], drop);
        var j :| 0 <= j < |rest| && rest[j].runId == id;
        var dropped := DropRun(runs, drop);
        assert dropped == rest || dropped[j + 1] == rest[j];
      }
    }
  }

  lemma SparedStays(h: Hub, a: Op, b: Op)
    requires IsRemoval(a) && IsRemoval(b) && Spares(a, b) && !Gone(h.sessions, b)
    ensures !Gone(Step(h, a).hub.sessions, b)
  {
    hide RollupState, NormalizedUrgency, Notifies, ShouldNotify, AnySoloed;
    if a.RemoveRun? && b.RemoveRun? && a.runId != b.runId {
      DropRunSpares(h.sessions[b.ownerId].runs, a.runId, b.runId);
    }
  }

  lemma {:induction false} IndependentNeedOneEach(h: Hub, removals: seq<Op>)
    requires Independent(h.sessions, removals)
    ensures RowsNeeded(h, removals) == |removals|
    decreases |removals|
  {
    hide Step, Gone, Spares;
    if removals != [] {
      var h', rest := Step(h, removals[0]).hub, removals[1..];
      forall k | 0 <= k < |rest| ensures !Gone(h'.sessions, rest[k]) {
        SparedStays(h, removals[0], rest[k]);
      }
      IndependentNeedOneEach(h', rest);
    }
  }

  // ----------------------------------------------------------- every face

  predicate CollectsOnly(step: ServerStep) {
    step.CollectGarbage? ==> forall k :: 0 <= k < |step.removals| ==> IsRemoval(step.removals[k])
  }

  /** The disk takes some of the rows a garbage collection needs, but not all. */
  predicate LeavesFacesBehind(s: HubServer, step: ServerStep)
    requires CollectsOnly(step)
  {
    step.CollectGarbage? && 0 < step.room < RowsNeeded(s.store.hub, step.removals)
  }

  /** One step keeps the published snapshot and every face equal to the Hub, whether
      its appends succeed or fail, exactly unless it is a garbage collection that the
      disk lets begin but not finish: those removals are never broadcast. */
  lemma StepKeepsSync(s: HubServer, step: ServerStep)
    requires InSync(s) && CollectsOnly(step)
    ensures Running(ServerNext(s, step))
    ensures InSync(ServerNext(s, step)) <==> !LeavesFacesBehind(s, step)
  {
    match step
    case Subscribe(f) => SnapshotSynchronizes(s.store.hub, EmptyHub, map[]);
    case Mutate(op, room) => ApplyFollows(s.store, op, room);
    case CollectGarbage(removals, room) =>
      hide Rolled, Gone, RowsNeeded, ApplyBatch, GuiApplyAll;
      BatchFollows(s.store, removals, room);
      BatchEffect(s.store, removals, room);
      BatchMeetsDisk(s.store, removals, room);
      var next := ServerNext(s, step);
      if SnapshotOf(next.store.hub) == SnapshotOf(s.store.hub) {
        SnapshotDetermines(s.store.hub, next.store.hub);
      }
  }

  /** In particular, a pass over distinct, present targets leaves the faces behind
      exactly when some, but not all, of its removals fit. */
  lemma PassLeavesFacesBehind(s: HubServer, removals: seq<Op>, room: nat)
    requires InSync(s) && Independent(s.store.hub.sessions, removals)
    ensures InSync(ServerNext(s, CollectGarbage(removals, room))) <==> room == 0 || room >= |removals|
  {
    hide InSync, ServerNext, RowsNeeded, Gone, Spares;
    IndependentNeedOneEach(s.store.hub, removals);
    StepKeepsSync(s, CollectGarbage(removals, room));
  }

  lemma StepStaysRunning(s: HubServer, step: ServerStep)
    requires Running(s)
    ensures Running(ServerNext(s, step))
  {
    match step
    case Subscribe(_) =>
    case Mutate(op, room) => ApplyFollows(s.store, op, room);
    case CollectGarbage(removals, room) => BatchFollows(s.store, removals, room);
  }

  function ServerAfter(steps: seq<ServerStep>): (s: HubServer)
    ensures Running(s)
  {
    if steps == [] then Started
    else
      var before := ServerAfter(steps[..|steps| - 1]);
      StepStaysRunning(before, steps[|steps| - 1]);
      ServerNext(before, steps[|steps| - 1])
  }

  /** Over every run, with subscribers joining anywhere and appends failing anywhere:
      unless some garbage collection failed half-way, each face holds the Hub's state. */
  lemma {:induction false} ServerStaysInSync(steps: seq<ServerStep>)
    requires forall k :: 0 <= k < |steps| ==>
      CollectsOnly(steps[k]) && !LeavesFacesBehind(ServerAfter(steps[..k]), steps[k])
    ensures InSync(ServerAfter(steps))
  {
    if steps != [] {
      var n := |steps| - 1;
      forall k | 0 <= k < n ensures !LeavesFacesBehind(ServerAfter(steps[..n][..k]), steps[..n][k]) {
        assert steps[..n][..k] == steps[..k];
      }
      ServerStaysInSync(steps[..n]);
      StepKeepsSync(ServerAfter(steps[..n]), steps[n]);
    }
  }

  lemma UpsertServed(s: HubServer, one: Session)
    requires Running(s) && one.sessionId !in s.store.hub.sessions
    ensures var s' := ServerNext(s, Mutate(UpsertSession(one), 1));
      s'.store.hub.sessions.Keys == s.store.hub.sessions.Keys + {one.sessionId} && s'.faces.Keys == s.faces.Keys
  {
    hide Rolled, Settle;
  }

  /** A face has joined, and two sessions have been reported. */
  function TwoServed(a: Session, b: Session): (s: HubServer)
    ensures Running(s)
  {
    var s0 := ServerNext(Started, Subscribe(0));
    StepStaysRunning(Started, Subscribe(0));
    var s1 := ServerNext(s0, Mutate(UpsertSession(a), 1));
    StepStaysRunning(s0, Mutate(UpsertSession(a), 1));
    StepStaysRunning(s1, Mutate(UpsertSession(b), 1));
    ServerNext(s1, Mutate(UpsertSession(b), 1))
  }

  lemma TwoAreServed(a: Session, b: Session)
    requires a.sessionId != b.sessionId
    ensures var s := TwoServed(a, b);
      InSync(s) && s.store.hub.sessions.Keys == {a.sessionId, b.sessionId} && 0 in s.faces
  {
    StepKeepsSync(Started, Subscribe(0));
    var s0 := ServerNext(Started, Subscribe(0));
    assert s0.store.hub == EmptyHub && 0 in s0.faces;
    hide ServerNext, Started, InSync;
    StepKeepsSync(s0, Mutate(UpsertSession(a), 1));
    UpsertServed(s0, a);
    var s1 := ServerNext(s0, Mutate(UpsertSession(a), 1));
    StepKeepsSync(s1, Mutate(UpsertSession(b), 1));
    UpsertServed(s1, b);
  }

  lemma FirstOfTwoGoes(st: Store, a: Id, b: Id)
    requires a != b && a in st.hub.sessions && b in st.hub.sessions
    ensures var both := [RemoveSession(a), RemoveSession(b)]; var r := ApplyBatch(st, both, 1);
      RowsNeeded(st.hub, both) == 2 && r.failed && a !in r.store.hub.sessions
  {
    hide Step;
    var both := [RemoveSession(a), RemoveSession(b)];
    IndependentNeedOneEach(st.hub, both);
    BatchMeetsDisk(st, both, 1);
    RemovalApplies(st, both[0], 1);
    RemovalTakesEffect(st, both[0], 1);
    BatchKeepsGone(Apply(st, both[0], 1).store, both[1..], both[0], 0);
  }

  /** Such a step is reachable: two sessions are collected with room for one row. The
      first is gone at the Hub and stays on the face. */
  lemma PartialCollectionIsReachable(a: Session, b: Session)
    requires a.sessionId != b.sessionId
    ensures var before := TwoServed(a, b);
      var collect := CollectGarbage([RemoveSession(a.sessionId), RemoveSession(b.sessionId)], 1);
      && InSync(before) && CollectsOnly(collect) && LeavesFacesBehind(before, collect)
      && var s := ServerNext(before, collect);
      && a.sessionId !in s.store.hub.sessions
      && 0 in s.faces && a.sessionId in s.faces[0].sessions
  {
    hide TwoServed, ApplyBatch, RowsNeeded;
    TwoAreServed(a, b);
    FirstOfTwoGoes(TwoServed(a, b).store, a.sessionId, b.sessionId);
  }

  lemma SnapshotDetermines(a: Hub, b: Hub)
    requires Valid(a) && Valid(b) && SnapshotOf(a) == SnapshotOf(b)
    ensures a == b
  {
    RestoreUndoes(a, Mute(Id("")));
    RestoreUndoes(b, Mute(Id("")));
  }
}
