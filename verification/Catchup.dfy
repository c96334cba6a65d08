/** After a garbage collection that failed half-way: what a face keeps showing, and what
    brings it back to the Hub. */
module Catchup {
  import opened Protocol
  import opened MergeSpec
  import opened Faces
  import opened Persist
  import opened Server

  /** The face is wrong about the session: it shows one that is gone, or another value. */
  ghost predicate Behind(s: HubServer, f: nat, id: Id)
    requires f in s.faces
  {
    !SameAt(s.faces[f].sessions, s.store.hub.sessions, id)
  }

  /** The store operation behind a step. */
  function Written(s: HubServer, step: ServerStep): Result {
    match step
    case Subscribe(_) => Result(s.store, [], true)
    case Mutate(op, room) => Apply(s.store, op, room)
    case CollectGarbage(removals, room) => ApplyBatch(s.store, removals, room)
  }

  predicate Commits(s: HubServer, step: ServerStep) { !Written(s, step).failed }

  /** What the step broadcasts: nothing unless it commits. */
  function Said(s: HubServer, step: ServerStep): seq<Event> {
    if Commits(s, step) then Written(s, step).events else []
  }

  ghost predicate Stated(events: seq<Event>, id: Id) {
    exists k :: 0 <= k < |events| && States(events[k], id)
  }

  // ----------------------------------------------- one session of one face

  lemma GuiStep(a: Hub, b: Hub, e: Event, id: Id)
    requires SameAt(a.sessions, b.sessions, id) || States(e, id)
    ensures SameAt(GuiApply(a, e).sessions, GuiApply(b, e).sessions, id)
  {
    hide GuiRolled, PutRun, DropRun;
  }

  lemma {:induction false} GuiAgreeAfterwards(a: Hub, b: Hub, events: seq<Event>, id: Id)
    requires SameAt(a.sessions, b.sessions, id) || Stated(events, id)
    ensures SameAt(GuiApplyAll(a, events).sessions, GuiApplyAll(b, events).sessions, id)
    decreases |events|
  {
    hide GuiApply, SameAt, States;
    if events != [] {
      if SameAt(a.sessions, b.sessions, id) || States(events[0], id) {
        GuiStep(a, b, events[0], id);
      } else {
        var k :| 0 <= k < |events| && States(events[k], id);
        assert States(events[1..][k - 1], id);
      }
      GuiAgreeAfterwards(GuiApply(a, events[0]), GuiApply(b, events[0]), events[1..], id);
    }
  }

  lemma {:induction false} GuiUnmentionedStays(g: Hub, events: seq<Event>, id: Id)
    requires forall k :: 0 <= k < |events| ==> !events[k].Snapshot? && !Mentions(events[k], id)
    ensures SameAt(GuiApplyAll(g, events).sessions, g.sessions, id)
    decreases |events|
  {
    hide GuiRolled, PutRun, DropRun;
    if events != [] {
      var g' := GuiApply(g, events[0]);
      assert SameAt(g'.sessions, g.sessions, id);
      hide GuiApply;
      GuiUnmentionedStays(g', events[1..], id);
    }
  }

  /** Broadcasts that state whom they mention bring exactly the stated sessions in line. */
  lemma HeardTogether(a: Hub, b: Hub, events: seq<Event>, id: Id)
    requires StatesWhoItMentions(events, id)
    ensures SameAt(GuiApplyAll(a, events).sessions, GuiApplyAll(b, events).sessions, id) <==>
      SameAt(a.sessions, b.sessions, id) || Stated(events, id)
  {
    hide GuiApplyAll, States, Mentions;
    if Stated(events, id) {
      GuiAgreeAfterwards(a, b, events, id);
    } else {
      GuiUnmentionedStays(a, events, id);
      GuiUnmentionedStays(b, events, id);
    }
  }

  lemma ApplyStates(st: Store, op: Op, room: nat, id: Id)
    requires Valid(st.hub) && !Apply(st, op, room).failed
    ensures StatesWhoItMentions(Apply(st, op, room).events, id)
  {
    hide Apply, Step, StatesWhoItMentions, Valid;
    ApplyIsStep(st, op, room);
    StepStates(st.hub, StoredOp(st.hub.sessions, op), id);
  }

  lemma {:induction false} BatchStates(st: Store, ops: seq<Op>, room: nat, id: Id)
    requires Valid(st.hub) && !ApplyBatch(st, ops, room).failed
    ensures StatesWhoItMentions(ApplyBatch(st, ops, room).events, id)
    decreases |ops|
  {
    hide Apply, StatesWhoItMentions, Valid;
    if ops == [] {
      NothingStates(id);
    } else {
      var head := Apply(st, ops[0], room);
      var left := if |head.store.log| > |st.log| then Less(room) else room;
      ApplyFollows(st, ops[0], room);
      ApplyStates(st, ops[0], room, id);
      BatchStates(head.store, ops[1..], left, id);
      StatesConcat(head.events, ApplyBatch(head.store, ops[1..], left).events, id);
    }
  }

  lemma CommitFollows(s: HubServer, step: ServerStep, id: Id)
    requires Running(s) && Commits(s, step)
    ensures StatesWhoItMentions(Said(s, step), id)
    ensures GuiApplyAll(s.store.hub, Said(s, step)) == ServerNext(s, step).store.hub
    ensures Running(ServerNext(s, step))
    ensures ServerNext(s, step).published == SnapshotOf(ServerNext(s, step).store.hub)
    ensures forall f :: f in s.faces ==>
      f in ServerNext(s, step).faces && ServerNext(s, step).faces[f] == GuiApplyAll(s.faces[f], Said(s, step))
  {
    hide Apply, ApplyBatch, StatesWhoItMentions, Valid, GuiApplyAll;
    match step
    case Mutate(op, room) =>
      ApplyFollows(s.store, op, room);
      ApplyStates(s.store, op, room, id);
    case CollectGarbage(removals, room) =>
      BatchFollows(s.store, removals, room);
      BatchStates(s.store, removals, room, id);
  }

  /** A step that does not commit, and is not a collection stopped half-way, changes
      neither the Hub nor what is published. */
  lemma RefusedChangesNothing(s: HubServer, step: ServerStep)
    requires Running(s) && CollectsOnly(step) && !LeavesFacesBehind(s, step) && !Commits(s, step)
    ensures ServerNext(s, step).store.hub == s.store.hub && ServerNext(s, step).published == s.published
    ensures forall f :: f in s.faces && step != Subscribe(f) ==>
      f in ServerNext(s, step).faces && ServerNext(s, step).faces[f] == s.faces[f]
  {
    hide Apply, ApplyBatch, RowsNeeded, Valid, GuiApply;
    match step
    case Subscribe(_) =>
    case Mutate(op, room) => ApplyFollows(s.store, op, room);
    case CollectGarbage(removals, room) =>
      BatchFollows(s.store, removals, room);
      BatchMeetsDisk(s.store, removals, room);
      BatchEffect(s.store, removals, room);
  }

  /** One step, and any face that does not rejoin with it: a session comes right exactly
      when the step states it. */
  lemma StepCatchesUp(s: HubServer, step: ServerStep, f: nat, id: Id)
    requires Running(s) && CollectsOnly(step) && !LeavesFacesBehind(s, step)
    requires f in s.faces && step != Subscribe(f)
    ensures f in ServerNext(s, step).faces
    ensures Behind(ServerNext(s, step), f, id) <==> Behind(s, f, id) && !Stated(Said(s, step), id)
  {
    hide ServerNext, Written, SameAt, States, RowsNeeded, Valid, StatesWhoItMentions;
    if Commits(s, step) {
      CommitFollows(s, step, id);
      HeardTogether(s.faces[f], s.store.hub, Said(s, step), id);
    } else {
      RefusedChangesNothing(s, step);
    }
  }

  // ------------------------------------------------------------ whole runs

  function ServerRun(s: HubServer, steps: seq<ServerStep>): (r: HubServer)
    requires Running(s)
    ensures Running(r)
  {
    if steps == [] then s
    else
      var before := ServerRun(s, steps[..|steps| - 1]);
      StepStaysRunning(before, steps[|steps| - 1]);
      ServerNext(before, steps[|steps| - 1])
  }

  /** No collection of the run stops half-way. */
  ghost predicate Whole(s: HubServer, steps: seq<ServerStep>)
    requires Running(s)
  {
    forall k :: 0 <= k < |steps| ==> CollectsOnly(steps[k]) && !LeavesFacesBehind(ServerRun(s, steps[..k]), steps[k])
  }

  predicate CommitsAt(s: HubServer, steps: seq<ServerStep>, k: int)
    requires Running(s)
  {
    0 <= k < |steps| && Commits(ServerRun(s, steps[..k]), steps[k])
  }

  ghost predicate StatedAt(s: HubServer, steps: seq<ServerStep>, k: int, id: Id)
    requires Running(s)
  {
    0 <= k < |steps| && Stated(Said(ServerRun(s, steps[..k]), steps[k]), id)
  }

  lemma WholeStart(s: HubServer, steps: seq<ServerStep>)
    requires Running(s) && steps != [] && Whole(s, steps)
    ensures var n := |steps| - 1;
      Whole(s, steps[..n]) && CollectsOnly(steps[n]) && !LeavesFacesBehind(ServerRun(s, steps[..n]), steps[n])
  {
    hide ServerRun, Running, LeavesFacesBehind, CollectsOnly;
    var init := steps[..|steps| - 1];
    forall k | 0 <= k < |init|
      ensures CollectsOnly(init[k]) && !LeavesFacesBehind(ServerRun(s, init[..k]), init[k]) {
      assert init[..k] == steps[..k] && init[k] == steps[k];
    }
  }

  lemma StatedLast(s: HubServer, steps: seq<ServerStep>, id: Id)
    requires Running(s) && steps != []
    ensures var n := |steps| - 1;
      (exists k :: StatedAt(s, steps, k, id)) <==>
          (exists k :: StatedAt(s, steps[..n], k, id)) || StatedAt(s, steps, n, id)
  {
    hide ServerRun, Running, Stated, Said;
    var n := |steps| - 1;
    if k :| StatedAt(s, steps, k, id) {
      if k < n {
        assert steps[..n][..k] == steps[..k];
        assert StatedAt(s, steps[..n], k, id);
      }
    }
    if k :| StatedAt(s, steps[..n], k, id) {
      assert steps[..n][..k] == steps[..k];
      assert StatedAt(s, steps, k, id);
    }
  }

  /** As long as the face does not rejoin: it stays behind on a session exactly until a
      broadcast states it. */
  lemma {:induction false} FaceCatchesUp(s: HubServer, steps: seq<ServerStep>, f: nat, id: Id)
    requires Running(s) && Whole(s, steps) && f in s.faces && Subscribe(f) !in steps
    ensures var t := ServerRun(s, steps);
      && f in t.faces
      && (Behind(t, f, id) <==> Behind(s, f, id) && !exists k :: StatedAt(s, steps, k, id))
  {
    hide Running, Whole, Behind, Stated, Said, ServerNext, LeavesFacesBehind, CollectsOnly;
    if steps != [] {
      var n := |steps| - 1;
      WholeStart(s, steps);
      FaceCatchesUp(s, steps[..n], f, id);
      StepCatchesUp(ServerRun(s, steps[..n]), steps[n], f, id);
      StatedLast(s, steps, id);
    }
  }

  // ------------------------------------------------- the half-way collection

  lemma AfterFromCons(h: Hub, op: Op, ops: seq<Op>)
    ensures AfterFrom(h, [op] + ops) == AfterFrom(Step(h, op).hub, ops)
  {
    hide Step;
    AfterFromSplits(h, [op], ops);
    assert [op][..0] == [];
  }

  lemma GoneStaysPut(h: Hub, op: Op)
    requires IsRemoval(op) && Gone(h.sessions, op)
    ensures Step(h, op).hub == h
  {
  }

  /** A batch the disk cuts short has carried out a proper part of its removals, from the
      front: as many as write the rows there was room for. */
  lemma {:induction false} BatchStops(st: Store, removals: seq<Op>, room: nat) returns (p: nat)
    requires forall k :: 0 <= k < |removals| ==> IsRemoval(removals[k])
    requires room < RowsNeeded(st.hub, removals)
    ensures p < |removals| && (forall k :: 0 <= k < p ==> IsRemoval(removals[..p][k]))
    ensures RowsNeeded(st.hub, removals[..p]) == room
    ensures ApplyBatch(st, removals, room).store.hub == AfterFrom(st.hub, removals[..p])
    decreases |removals|
  {
    hide Apply, Step, Gone, AfterFrom;
    RemovalApplies(st, removals[0], room);
    var head := Apply(st, removals[0], room);
    if head.failed {
      p := 0;
      NothingRun(st.hub);
      assert removals[..0] == [];
    } else {
      var left := if |head.store.log| > |st.log| then Less(room) else room;
      if Gone(st.hub.sessions, removals[0]) { GoneStaysPut(st.hub, removals[0]); }
      var q := BatchStops(head.store, removals[1..], left);
      p := q + 1;
      var done := removals[..p];
      assert done[0] == removals[0] && done[1..] == removals[1..][..q] && done == [removals[0]] + removals[1..][..q];
      AfterFromCons(st.hub, removals[0], removals[1..][..q]);
    }
  }

  lemma NothingRun(h: Hub)
    ensures AfterFrom(h, []) == h
  {
  }

  /** Right after it: everybody still sees the Hub from before, and the Hub has moved on by
      the collected removals. */
  lemma HalfWay(s: HubServer, collect: ServerStep) returns (p: nat)
    requires InSync(s) && CollectsOnly(collect) && LeavesFacesBehind(s, collect)
    ensures p < |collect.removals|
    ensures var t := ServerNext(s, collect);
      && Running(t)
      && t.store.hub == AfterFrom(s.store.hub, collect.removals[..p]) != s.store.hub
      && t.published == SnapshotOf(s.store.hub) && t.faces == s.faces
  {
    hide Valid, ApplyBatch, RowsNeeded, AfterFrom, GuiApplyAll;
    BatchFollows(s.store, collect.removals, collect.room);
    BatchMeetsDisk(s.store, collect.removals, collect.room);
    BatchEffect(s.store, collect.removals, collect.room);
    p := BatchStops(s.store, collect.removals, collect.room);
  }

  function Onward(s: HubServer, step: ServerStep): (t: HubServer)
    requires Running(s)
    ensures Running(t)
  {
    StepStaysRunning(s, step);
    ServerNext(s, step)
  }

  /** From then on a face that stays connected is wrong about exactly the sessions the
      collected removals changed and no broadcast has stated since. */
  lemma AfterHalfWay(s: HubServer, collect: ServerStep, steps: seq<ServerStep>, f: nat, id: Id) returns (p: nat)
    requires InSync(s) && CollectsOnly(collect) && LeavesFacesBehind(s, collect)
    requires Whole(Onward(s, collect), steps)
    requires f in s.faces && Subscribe(f) !in steps
    ensures p < |collect.removals|
    ensures var from := Onward(s, collect); var t := ServerRun(from, steps);
      && f in t.faces
      && (Behind(t, f, id) <==>
            && !SameAt(s.store.hub.sessions, AfterFrom(s.store.hub, collect.removals[..p]).sessions, id)
            && !exists k :: StatedAt(from, steps, k, id))
  {
    hide ServerNext, Running, Whole, LeavesFacesBehind, AfterFrom, SameAt, ServerRun, StatedAt;
    p := HalfWay(s, collect);
    FaceCatchesUp(Onward(s, collect), steps, f, id);
  }

  // ------------------------------------------------------------- rejoining

  /** What is published is right after a commit; any other step leaves it as right, or as
      wrong, as it was. */
  lemma StepPublishes(s: HubServer, step: ServerStep)
    requires Running(s) && CollectsOnly(step) && !LeavesFacesBehind(s, step)
    ensures var t := ServerNext(s, step);
      && Running(t)
      && (Commits(s, step) ==> t.published == SnapshotOf(t.store.hub))
      && (!Commits(s, step) ==> t.published == s.published && t.store.hub == s.store.hub)
  {
    hide ServerNext, LeavesFacesBehind, Valid, Commits;
    StepStaysRunning(s, step);
    if Commits(s, step) {
      CommitFollows(s, step, Id(""));
    } else {
      RefusedChangesNothing(s, step);
    }
  }

  lemma CommitsLast(s: HubServer, steps: seq<ServerStep>)
    requires Running(s) && steps != []
    ensures var n := |steps| - 1;
      (exists k :: CommitsAt(s, steps, k)) <==> (exists k :: CommitsAt(s, steps[..n], k)) || CommitsAt(s, steps, n)
  {
    hide ServerRun, Running, Commits;
    var n := |steps| - 1;
    if k :| CommitsAt(s, steps, k) {
      if k < n {
        assert steps[..n][..k] == steps[..k];
        assert CommitsAt(s, steps[..n], k);
      }
    }
    if k :| CommitsAt(s, steps[..n], k) {
      assert steps[..n][..k] == steps[..k];
      assert CommitsAt(s, steps, k);
    }
  }

  lemma {:induction false} RunPublishes(s: HubServer, steps: seq<ServerStep>)
    requires Running(s) && Whole(s, steps)
    ensures var t := ServerRun(s, steps);
      if exists k :: CommitsAt(s, steps, k) then t.published == SnapshotOf(t.store.hub)
      else t.published == s.published && t.store.hub == s.store.hub
  {
    hide Running, Whole, ServerNext, LeavesFacesBehind, CollectsOnly, Commits;
    if steps != [] {
      var n := |steps| - 1;
      WholeStart(s, steps);
      RunPublishes(s, steps[..n]);
      StepPublishes(ServerRun(s, steps[..n]), steps[n]);
      CommitsLast(s, steps);
    }
  }

  lemma RejoinShows(s: HubServer, f: nat, h: Hub)
    requires Running(s) && Valid(h) && s.published == SnapshotOf(h)
    ensures var t := ServerNext(s, Subscribe(f)); f in t.faces && t.faces[f] == h
  {
    hide Valid, GuiApply;
    SnapshotSynchronizes(h, EmptyHub, map[]);
  }

  /** After a half-way collection, a face that rejoins sees the Hub as it is if and only if
      some step has committed in between; otherwise it sees it as it was before. */
  lemma RejoinRepairsIff(s: HubServer, collect: ServerStep, steps: seq<ServerStep>, f: nat)
    requires InSync(s) && CollectsOnly(collect) && LeavesFacesBehind(s, collect)
    requires Whole(Onward(s, collect), steps)
    ensures var from := Onward(s, collect); var t := ServerRun(from, steps);
      var joined := ServerNext(t, Subscribe(f));
      && f in joined.faces
      && joined.faces[f] == (if exists k :: CommitsAt(from, steps, k) then t.store.hub else s.store.hub)
      && (joined.faces[f] == t.store.hub <==> exists k :: CommitsAt(from, steps, k))
  {
    hide ServerNext, Whole, LeavesFacesBehind, AfterFrom, ServerRun, Valid, CommitsAt;
    var p := HalfWay(s, collect);
    var from := Onward(s, collect);
    var t := ServerRun(from, steps);
    RunPublishes(from, steps);
    if exists k :: CommitsAt(from, steps, k) {
      RejoinShows(t, f, t.store.hub);
    } else {
      RejoinShows(t, f, s.store.hub);
    }
  }
}
