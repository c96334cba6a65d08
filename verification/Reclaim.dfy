/** Durable-identity gating of run deltas: at most one effect per stamp, last writer
    by stamp whatever the arrival order, and what a failed append does to that. */
module Reclaim {
  import opened Protocol
  import opened MergeSpec
  import opened Effects
  import opened Persist

  /** Epoch and sequence number of a delta, or the highest applied so far. */
  datatype Stamp = Stamp(epoch: nat, sequence: nat)

  type Marks = map<Id, Stamp>

  datatype Decision = ApplyFresh | ApplyNext | DuplicateDrop | StaleEpochDrop {
    predicate Applies() { ApplyFresh? || ApplyNext? }
  }

  /** The intended order on stamps: epoch first, then sequence. */
  predicate Later(a: Stamp, b: Stamp) {
    a.epoch > b.epoch || (a.epoch == b.epoch && a.sequence > b.sequence)
  }

  function Classify(marks: Marks, id: Id, s: Stamp): Decision {
    if id !in marks then ApplyFresh
    else if s.epoch > marks[id].epoch then ApplyFresh
    else if s.epoch < marks[id].epoch then StaleEpochDrop
    else if s.sequence > marks[id].sequence then ApplyNext
    else DuplicateDrop
  }

  /** Record a stamp; never moves an epoch back nor lowers a sequence. */
  function Committed(marks: Marks, id: Id, s: Stamp): Marks {
    if id !in marks then marks[id := s]
    else if s.epoch > marks[id].epoch then marks[id := s]
    else if s.epoch == marks[id].epoch && s.sequence > marks[id].sequence then
        marks[id := marks[id].(sequence := s.sequence)]
    else marks
  }

  function Admitted(marks: Marks, id: Id, s: Stamp): Marks {
    if Classify(marks, id, s).Applies() then Committed(marks, id, s) else marks
  }

  class ReclaimTable {
    var marks: Marks

    constructor ()
      ensures marks == map[]
    {
      marks := map[];
    }

    method Commit(id: Id, s: Stamp)
      modifies this
      ensures marks == Committed(old(marks), id, s)
      ensures forall k :: k in old(marks) ==> k in marks && !Later(old(marks)[k], marks[k])
      ensures id in marks && !Later(s, marks[id])
    {
      if id !in marks {
        marks := marks[id := s];
      } else {
        var m := marks[id];
        if s.epoch > m.epoch {
          marks := marks[id := s];
        } else if s.epoch == m.epoch && s.sequence > m.sequence {
          marks := marks[id := m.(sequence := s.sequence)];
        }
      }
    }

    method Admit(id: Id, s: Stamp) returns (decision: Decision)
      modifies this
      ensures decision == Classify(old(marks), id, s)
      ensures marks == Admitted(old(marks), id, s)
    {
      decision := Classify(marks, id, s);
      if decision.Applies() {
        Commit(id, s);
      }
    }

    method DropIds(ids: set<Id>)
      modifies this
      ensures marks == old(marks) - ids
    {
      marks := marks - ids;
    }
  }

  /** The gate admits exactly the stamps later than the mark, and then the mark is
      the stamp; other ids are untouched. */
  lemma AdmitMeaning(marks: Marks, id: Id, s: Stamp)
    ensures Classify(marks, id, s).Applies() <==> (id in marks ==> Later(s, marks[id]))
    ensures Classify(marks, id, s).Applies() ==> Admitted(marks, id, s) == marks[id := s]
    ensures !Classify(marks, id, s).Applies() ==> Admitted(marks, id, s) == marks
  {
  }

  // ------------------------------------------------------------ convergence

  datatype Delta = Delta(id: Id, stamp: Stamp, run: AgentRun)

  /** The gate's marks and, per durable id, the last delta let through. */
  datatype Gate = Gate(marks: Marks, latest: map<Id, Delta>)

  function Arrive(g: Gate, d: Delta): Gate {
    Gate(Admitted(g.marks, d.id, d.stamp),
         if Classify(g.marks, d.id, d.stamp).Applies() then g.latest[d.id := d] else g.latest)
  }

  function Arrived(deltas: seq<Delta>): Gate {
    if deltas == [] then Gate(map[], map[]) else Arrive(Arrived(deltas[..|deltas| - 1]), deltas[|deltas| - 1])
  }

  ghost predicate LastWriter(d: Delta, deltas: seq<Delta>) {
    d in deltas && forall e :: e in deltas && e.id == d.id ==> !Later(e.stamp, d.stamp)
  }

  lemma {:induction false} GateKeepsLastWriter(deltas: seq<Delta>, id: Id)
    ensures var g := Arrived(deltas);
      && (id in g.marks <==> id in g.latest)
      && (id in g.latest <==> exists d :: d in deltas && d.id == id)
      && (id in g.latest ==>
            g.latest[id].id == id && g.marks[id] == g.latest[id].stamp && LastWriter(g.latest[id], deltas))
  {
    if deltas != [] {
      var n := |deltas| - 1;
      var init, d := deltas[..n], deltas[n];
      assert deltas == init + [d];
      GateKeepsLastWriter(init, id);
      AdmitMeaning(Arrived(init).marks, d.id, d.stamp);
    }
  }

  /** Two deltas of the same id and stamp carry the same run. */
  ghost predicate StampsIdentify(deltas: seq<Delta>) {
    forall d, e :: d in deltas && e in deltas && d.id == e.id && d.stamp == e.stamp ==> d == e
  }

  /** Any reordering, and any redelivery, of the same deltas ends with the same run. */
  lemma GateConverges(a: seq<Delta>, b: seq<Delta>, id: Id)
    requires StampsIdentify(a) && forall d :: d in a <==> d in b
    ensures id in Arrived(a).latest <==> id in Arrived(b).latest
    ensures id in Arrived(a).latest ==> Arrived(a).latest[id] == Arrived(b).latest[id]
  {
    GateKeepsLastWriter(a, id);
    GateKeepsLastWriter(b, id);
  }

  // --------------------------------------------------------- with the store

  /** The durable store with its gate: marks by durable id, and per session the ids
      whose marks go when it does. */
  datatype Gated = Gated(store: Store, marks: Marks, durables: map<Id, set<Id>>)

  datatype GatedStep =
    | Deliver(sessionId: Id, delta: Delta, room: nat)
    | SessionGone(sessionId: Id, room: nat)
    | RunGone(sessionId: Id, runId: Id, room: nat)
    | Restart

  function DurablesOf(g: Gated, sessionId: Id): set<Id> {
    if sessionId in g.durables then g.durables[sessionId] else {}
  }

  /** The first run with the id, as lookups find it. */
  function FirstRun(runs: seq<AgentRun>, runId: Id): Option<AgentRun> {
    if runs == [] then None else if runs[0].runId == runId then Some(runs[0]) else FirstRun(runs[1..], runId)
  }

  predicate NativeUsed(runs: seq<AgentRun>, nativeId: Id) {
    exists i :: 0 <= i < |runs| && runs[i].nativeId == nativeId
  }

  function NativeIds(runs: seq<AgentRun>): set<Id> {
    set i | 0 <= i < |runs| :: runs[i].nativeId
  }

  /** The marks a step forgets: a removed session's, a removed run's if no other run of
      its session shares the durable id, and all of them at a restart. A removal whose
      append fails forgets nothing. */
  function Forgotten(g: Gated, step: GatedStep): set<Id> {
    var m := g.store.hub.sessions;
    match step
    case Deliver(_, _, _) => {}
    case SessionGone(id, room) => if id in m && room > 0 then DurablesOf(g, id) else {}
    case RunGone(id, runId, room) =>
      if id !in m || room == 0 then {}
      else
        var gone := FirstRun(m[id].runs, runId);
        if gone.None? || NativeUsed(DropRun(m[id].runs, runId), gone.value.nativeId) then {} else {gone.value.nativeId}
    case Restart => g.marks.Keys
  }

  /** A set of ids left behind by a removal; an emptied one goes. */
  function Pruned(durables: map<Id, set<Id>>, sessionId: Id, ids: set<Id>): map<Id, set<Id>> {
    if ids == {} || sessionId !in durables then durables
    else if durables[sessionId] - ids == {} then durables - {sessionId}
    else durables[sessionId := durables[sessionId] - ids]
  }

  predicate Admits(g: Gated, sessionId: Id, d: Delta) {
    sessionId in g.store.hub.sessions && Classify(g.marks, d.id, d.stamp).Applies()
  }

  function GatedNext(g: Gated, step: GatedStep): Gated {
    var st := g.store;
    match step
    case Deliver(id, d, room) =>
      if !Admits(g, id, d) then g
      else
        Gated(Apply(st, UpsertRun(id, d.run), room).store, Admitted(g.marks, d.id, d.stamp),
              g.durables[id := DurablesOf(g, id) + {d.id}])
    case SessionGone(id, room) =>
      Gated(Apply(st, RemoveSession(id), room).store, g.marks - Forgotten(g, step),
            if id in st.hub.sessions && room > 0 then g.durables - {id} else g.durables)
    case RunGone(id, runId, room) =>
      Gated(Apply(st, RemoveRun(id, runId), room).store, g.marks - Forgotten(g, step),
            Pruned(g.durables, id, Forgotten(g, step)))
    case Restart =>
      var hub := Replay(st.log);
      Gated(Store(st.log, hub), map[], map id | id in hub.sessions :: NativeIds(hub.sessions[id].runs))
  }

  function GatedRun(g: Gated, steps: seq<GatedStep>): Gated {
    if steps == [] then g else GatedNext(GatedRun(g, steps[..|steps| - 1]), steps[|steps| - 1])
  }

  class GatedStore {
    const store: StateStore
    const reclaim: ReclaimTable
    var durables: map<Id, set<Id>>

    ghost function State(): Gated
      reads this, store.log, store.engine, reclaim
    {
      Gated(store.State(), reclaim.marks, durables)
    }

    constructor (store: StateStore, reclaim: ReclaimTable)
      ensures this.store == store && this.reclaim == reclaim && durables == map[]
    {
      this.store, this.reclaim, durables := store, reclaim, map[];
    }

    method ApplyRunUpsertSeq(sessionId: Id, d: Delta) returns (decision: Decision, events: seq<Event>, failed: bool)
      requires store.engine.Ok()
      modifies this, store.log, store.engine, reclaim
      ensures store.engine.Ok()
      ensures State() == GatedNext(old(State()), Deliver(sessionId, d, old(store.log.room)))
      ensures decision.Applies() == Admits(old(State()), sessionId, d)
      ensures failed == (decision.Applies() && old(store.log.room) == 0)
    {
      if sessionId !in store.engine.sessions {
        return DuplicateDrop, [], false;
      }
      decision := reclaim.Admit(d.id, d.stamp);
      if !decision.Applies() {
        return decision, [], false;
      }
      durables := durables[sessionId := (if sessionId in durables then durables[sessionId] else {}) + {d.id}];
      events, failed := store.ApplyRunUpsert(sessionId, d.run);
    }

    method ApplySessionRemove(sessionId: Id) returns (events: seq<Event>, failed: bool)
      requires store.engine.Ok()
      modifies this, store.log, store.engine, reclaim
      ensures store.engine.Ok()
      ensures State() == GatedNext(old(State()), SessionGone(sessionId, old(store.log.room)))
    {
      if sessionId !in store.engine.sessions {
        return [], false;
      }
      events, failed := store.ApplySessionRemove(sessionId);
      if failed {
        return;
      }
      if sessionId in durables {
        reclaim.DropIds(durables[sessionId]);
        durables := durables - {sessionId};
      }
    }

    method ApplyRunRemove(sessionId: Id, runId: Id) returns (events: seq<Event>, failed: bool)
      requires store.engine.Ok()
      modifies this, store.log, store.engine, reclaim
      ensures store.engine.Ok()
      ensures State() == GatedNext(old(State()), RunGone(sessionId, runId, old(store.log.room)))
    {
      if sessionId !in store.engine.sessions {
        return [], false;
      }
      var gone := FirstRun(store.engine.sessions[sessionId].runs, runId);
      FirstRunFinds(store.engine.sessions[sessionId].runs, runId);
      if gone.None? {
        return [], false;
      }
      ghost var was := store.State();
      RunRemoveFails(was, sessionId, runId, store.log.room);
      hide Apply, Step, Valid, FirstRun, NativeUsed, DropRun, HasRun;
      events, failed := store.ApplyRunRemove(sessionId, runId);
      if failed {
        return;
      }
      RemovedRunLeaves(was.hub, sessionId, runId);
      if !NativeUsed(store.engine.sessions[sessionId].runs, gone.value.nativeId) {
        reclaim.DropIds({gone.value.nativeId});
        if sessionId in durables {
          var left := durables[sessionId] - {gone.value.nativeId};
          durables := if left == {} then durables - {sessionId} else durables[sessionId := left];
        }
      }
    }
  }

  lemma {:induction false} FirstRunFinds(runs: seq<AgentRun>, runId: Id)
    ensures FirstRun(runs, runId).Some? <==> HasRun(runs, runId)
    ensures FirstRun(runs, runId).Some? ==> FirstRun(runs, runId).value.runId == runId
  {
    if runs != [] {
      FirstRunFinds(runs[1..], runId);
      if i :| 0 <= i < |runs[1..]| && runs[1..][i].runId == runId { assert runs[i + 1].runId == runId; }
      if i :| 0 <= i < |runs| && runs[i].runId == runId { assert i == 0 || runs[1..][i - 1].runId == runId; }
    }
  }

  lemma RunRemoveFails(st: Store, id: Id, runId: Id, room: nat)
    requires id in st.hub.sessions && HasRun(st.hub.sessions[id].runs, runId)
    ensures var r := Apply(st, RemoveRun(id, runId), room);
      (r.failed <==> room == 0) && (room > 0 ==> r.store.hub == Step(st.hub, RemoveRun(id, runId)).hub)
  {
    hide Step;
  }

  lemma RemovedRunLeaves(h: Hub, id: Id, runId: Id)
    requires id in h.sessions && HasRun(h.sessions[id].runs, runId)
    ensures var m := Step(h, RemoveRun(id, runId)).hub.sessions;
      id in m && m[id].runs == DropRun(h.sessions[id].runs, runId)
  {
  }

  // ----------------------------------------------------------- redelivery

  /** A step that does not forget a mark keeps it, or moves it later. */
  lemma StepKeepsMark(g: Gated, step: GatedStep, id: Id)
    requires id in g.marks && id !in Forgotten(g, step)
    ensures id in GatedNext(g, step).marks && !Later(g.marks[id], GatedNext(g, step).marks[id])
  {
    hide Apply, FirstRun, NativeUsed, DurablesOf;
  }

  /** What is forgotten is gone. */
  lemma StepForgets(g: Gated, step: GatedStep, id: Id)
    requires id in Forgotten(g, step)
    ensures id !in GatedNext(g, step).marks
  {
    hide Apply, FirstRun, NativeUsed, DurablesOf;
  }

  ghost predicate NeverForgets(g: Gated, steps: seq<GatedStep>, id: Id) {
    forall k :: 0 <= k < |steps| ==> id !in Forgotten(GatedRun(g, steps[..k]), steps[k])
  }

  lemma {:induction false} MarkStands(g: Gated, steps: seq<GatedStep>, id: Id)
    requires id in g.marks && NeverForgets(g, steps, id)
    ensures var g' := GatedRun(g, steps); id in g'.marks && !Later(g.marks[id], g'.marks[id])
  {
    hide Forgotten, GatedNext, Later;
    if steps == [] {
      NotLaterThanItself(g.marks[id]);
    } else {
      var n := |steps| - 1;
      forall k | 0 <= k < n ensures id !in Forgotten(GatedRun(g, steps[..n][..k]), steps[..n][k]) {
        assert steps[..n][..k] == steps[..k];
      }
      MarkStands(g, steps[..n], id);
      var before := GatedRun(g, steps[..n]);
      StepKeepsMark(before, steps[n], id);
      NotLaterChains(g.marks[id], before.marks[id], GatedRun(g, steps).marks[id]);
    }
  }

  lemma NotLaterThanItself(a: Stamp)
    ensures !Later(a, a)
  {
  }

  lemma NotLaterChains(a: Stamp, b: Stamp, c: Stamp)
    requires !Later(a, b) && !Later(b, c)
    ensures !Later(a, c)
  {
  }

  /** A delta takes effect if and only if its first append succeeded, and then once:
      after any steps that do not forget its mark, any number of redeliveries among
      them, delivering it again to any session changes nothing. */
  lemma RedeliveryEffect(g: Gated, sessionId: Id, d: Delta, room: nat, later: seq<GatedStep>, again: GatedStep)
    requires Admits(g, sessionId, d)
    requires NeverForgets(GatedNext(g, Deliver(sessionId, d, room)), later, d.id)
    requires again.Deliver? && again.delta == d
    ensures var first := GatedNext(g, Deliver(sessionId, d, room));
      && first.store ==
           (if room > 0
            then Store(g.store.log + [RunUpsert(sessionId, d.run)], Step(g.store.hub, UpsertRun(sessionId, d.run)).hub)
            else g.store)
      && GatedNext(GatedRun(first, later), again) == GatedRun(first, later)
  {
    hide Step, Forgotten, NeverForgets, GatedRun;
    AdmitMeaning(g.marks, d.id, d.stamp);
    var first := GatedNext(g, Deliver(sessionId, d, room));
    MarkStands(first, later, d.id);
    AdmitMeaning(GatedRun(first, later).marks, d.id, d.stamp);
  }

  /** A delta its mark already covers is let through again exactly when the step forgets
      that mark: a removal of its session or run that was written, or a restart. */
  lemma ReadmittedIffForgotten(g: Gated, step: GatedStep, sessionId: Id, d: Delta)
    requires d.id in g.marks && !Later(d.stamp, g.marks[d.id])
    requires sessionId in GatedNext(g, step).store.hub.sessions
    ensures Admits(GatedNext(g, step), sessionId, d) <==> d.id in Forgotten(g, step)
  {
    hide GatedNext, Forgotten, Later, Classify;
    var marks := GatedNext(g, step).marks;
    AdmitMeaning(marks, d.id, d.stamp);
    if d.id in Forgotten(g, step) {
      StepForgets(g, step, d.id);
    } else {
      StepKeepsMark(g, step, d.id);
      NotLaterChains(d.stamp, g.marks[d.id], marks[d.id]);
    }
  }

  /** A mark that is not forgotten stays in the index of the session it was recorded for. */
  lemma StepKeepsIndex(g: Gated, step: GatedStep, sessionId: Id, id: Id)
    requires id in g.marks && id in DurablesOf(g, sessionId) && id !in Forgotten(g, step)
    ensures id in DurablesOf(GatedNext(g, step), sessionId)
  {
    hide Apply, FirstRun, NativeUsed, NativeIds;
  }

  lemma {:induction false} IndexStands(g: Gated, steps: seq<GatedStep>, sessionId: Id, id: Id)
    requires id in g.marks && id in DurablesOf(g, sessionId) && NeverForgets(g, steps, id)
    ensures id in DurablesOf(GatedRun(g, steps), sessionId)
  {
    hide Forgotten, GatedNext, DurablesOf;
    if steps != [] {
      var n := |steps| - 1;
      forall k | 0 <= k < n ensures id !in Forgotten(GatedRun(g, steps[..n][..k]), steps[..n][k]) {
        assert steps[..n][..k] == steps[..k];
      }
      IndexStands(g, steps[..n], sessionId, id);
      MarkStands(g, steps[..n], id);
      StepKeepsIndex(GatedRun(g, steps[..n]), steps[n], sessionId, id);
    }
  }

  /** The removal of a session takes the mark of every delta it let through along, however
      long ago, unless something forgot it before. */
  lemma MarksGoWithTheirSession(g: Gated, sessionId: Id, d: Delta, room: nat, later: seq<GatedStep>, left: nat)
    requires Admits(g, sessionId, d)
    requires NeverForgets(GatedNext(g, Deliver(sessionId, d, room)), later, d.id)
    requires sessionId in GatedRun(GatedNext(g, Deliver(sessionId, d, room)), later).store.hub.sessions && left > 0
    ensures var last := GatedRun(GatedNext(g, Deliver(sessionId, d, room)), later);
      d.id in last.marks && d.id !in GatedNext(last, SessionGone(sessionId, left)).marks
  {
    var first := GatedNext(g, Deliver(sessionId, d, room));
    var last := GatedRun(first, later);
    AdmitMeaning(g.marks, d.id, d.stamp);
    assert d.id in first.marks && d.id in DurablesOf(first, sessionId);
    hide Apply, GatedNext, GatedRun, NeverForgets;
    MarkStands(first, later, d.id);
    IndexStands(first, later, sessionId, d.id);
    StepForgets(last, SessionGone(sessionId, left), d.id);
  }

  lemma {:induction false} FirstRunIsFirst(runs: seq<AgentRun>, runId: Id, i: int)
    requires FirstAt(runs, runId, i)
    ensures FirstRun(runs, runId) == Some(runs[i])
  {
    if runs[0].runId != runId {
      FirstAtTail(runs, runId, i);
      FirstRunIsFirst(runs[1..], runId, i - 1);
    }
  }

  /** The written removal of a run takes the mark under its durable id along, unless a run
      that is left has the same one; no other mark moves. */
  lemma MarkGoesUnlessShared(g: Gated, sessionId: Id, runId: Id, room: nat, i: int)
    requires sessionId in g.store.hub.sessions && room > 0
    requires FirstAt(g.store.hub.sessions[sessionId].runs, runId, i)
    ensures var id := g.store.hub.sessions[sessionId].runs[i].nativeId;
      var g' := GatedNext(g, RunGone(sessionId, runId, room));
      && sessionId in g'.store.hub.sessions
      && (var left := g'.store.hub.sessions[sessionId].runs;
          id in g'.marks <==> id in g.marks && exists j :: 0 <= j < |left| && left[j].nativeId == id)
      && forall other :: other != id ==>
           (other in g'.marks <==> other in g.marks) && (other in g.marks ==> g'.marks[other] == g.marks[other])
  {
    var runs := g.store.hub.sessions[sessionId].runs;
    FirstRunIsFirst(runs, runId, i);
    FirstRunFinds(runs, runId);
    RunRemoveFails(g.store, sessionId, runId, room);
    RemovedRunLeaves(g.store.hub, sessionId, runId);
    hide Apply, Step, FirstRun, HasRun, DropRun, FirstAt;
  }

  /** After a restart every delta to a restored session gets through, also one whose
      append had failed, and is written once more; the index names its runs' durable ids. */
  lemma RestartReadmits(g: Gated, sessionId: Id, d: Delta, room: nat)
    requires sessionId in Replay(g.store.log).sessions && room > 0
    ensures var g' := GatedNext(g, Restart);
      && Admits(g', sessionId, d)
      && GatedNext(g', Deliver(sessionId, d, room)).store.log == g.store.log + [RunUpsert(sessionId, d.run)]
      && forall id :: id in DurablesOf(g', sessionId) <==>
           exists i :: 0 <= i < |Replay(g.store.log).sessions[sessionId].runs|
                       && Replay(g.store.log).sessions[sessionId].runs[i].nativeId == id
  {
    hide Step, Replay;
  }

  // --------------------------------------------------- the Hub's own runs

  /** Durable ids and run ids name the same agents. */
  ghost predicate RunsFollowIds(deltas: seq<Delta>) {
    forall d, e :: d in deltas && e in deltas ==> (d.id == e.id <==> d.run.runId == e.run.runId)
  }

  function DeliverAll(g: Gated, sessionId: Id, deltas: seq<Delta>): Gated {
    if deltas == [] then g
    else GatedNext(DeliverAll(g, sessionId, deltas[..|deltas| - 1]), Deliver(sessionId, deltas[|deltas| - 1], 1))
  }

  lemma {:induction false} FirstRunAfterPut(runs: seq<AgentRun>, run: AgentRun, runId: Id)
    ensures FirstRun(PutRun(runs, run), runId) == if runId == run.runId then Some(run) else FirstRun(runs, runId)
  {
    if runs != [] {
      FirstRunAfterPut(runs[1..], run, runId);
      assert PutRun(runs, run)[1..] == if runs[0].runId == run.runId then runs[1..] else PutRun(runs[1..], run);
    }
  }

  /** What one delivery does to the session's runs and to the marks. */
  lemma DeliveryLands(g: Gated, sessionId: Id, d: Delta)
    requires sessionId in g.store.hub.sessions
    ensures var g' := GatedNext(g, Deliver(sessionId, d, 1)); var runs := g.store.hub.sessions[sessionId].runs;
      && sessionId in g'.store.hub.sessions
      && g'.marks == Admitted(g.marks, d.id, d.stamp)
      && g'.store.hub.sessions[sessionId].runs ==
           if Classify(g.marks, d.id, d.stamp).Applies() then PutRun(runs, d.run) else runs
  {
    hide RollupState, NormalizedUrgency, Notifies, ShouldNotify, AnySoloed;
  }

  /** The session's first run under `runId` is the one the gate let through last for the
      ids naming it, and the old one if none of the deltas names it. */
  ghost predicate HoldsLatest(runs: seq<AgentRun>, before: seq<AgentRun>, deltas: seq<Delta>, runId: Id) {
    && (forall d :: d in deltas && d.run.runId == runId ==>
          d.id in Arrived(deltas).latest && FirstRun(runs, runId) == Some(Arrived(deltas).latest[d.id].run))
    && ((forall d :: d in deltas ==> d.run.runId != runId) ==> FirstRun(runs, runId) == FirstRun(before, runId))
  }

  /** After any deliveries to a session the Hub's own run list holds, for every durable
      id, the run of a delta no delivered one is later than. */
  lemma {:induction false} HubHoldsLastWriter(g: Gated, sessionId: Id, deltas: seq<Delta>, runId: Id)
    requires sessionId in g.store.hub.sessions && g.marks == map[] && RunsFollowIds(deltas)
    ensures var g' := DeliverAll(g, sessionId, deltas);
      && sessionId in g'.store.hub.sessions
      && g'.marks == Arrived(deltas).marks
      && HoldsLatest(g'.store.hub.sessions[sessionId].runs, g.store.hub.sessions[sessionId].runs, deltas, runId)
  {
    hide GatedNext, Classify, FirstRun, PutRun;
    if deltas != [] {
      var n := |deltas| - 1;
      var init, d := deltas[..n], deltas[n];
      assert deltas == init + [d];
      HubHoldsLastWriter(g, sessionId, init, runId);
      var before := DeliverAll(g, sessionId, init);
      DeliveryLands(before, sessionId, d);
      LatestLands(before.store.hub.sessions[sessionId].runs, g.store.hub.sessions[sessionId].runs, init, d, runId);
    }
  }

  lemma ArrivedSnoc(init: seq<Delta>, d: Delta)
    ensures var applies := Classify(Arrived(init).marks, d.id, d.stamp).Applies();
      Arrived(init + [d]).latest == if applies then Arrived(init).latest[d.id := d] else Arrived(init).latest
  {
    assert (init + [d])[..|init|] == init;
  }

  /** A refused delta is not the first of its id. */
  lemma RefusedHasRival(init: seq<Delta>, d: Delta) returns (f: Delta)
    requires !Classify(Arrived(init).marks, d.id, d.stamp).Applies()
    ensures f in init && f.id == d.id
  {
    GateKeepsLastWriter(init, d.id);
    f :| f in init && f.id == d.id;
  }

  lemma LatestLands(runs: seq<AgentRun>, before: seq<AgentRun>, init: seq<Delta>, d: Delta, runId: Id)
    requires HoldsLatest(runs, before, init, runId) && RunsFollowIds(init + [d])
    ensures var applies := Classify(Arrived(init).marks, d.id, d.stamp).Applies();
      HoldsLatest(if applies then PutRun(runs, d.run) else runs, before, init + [d], runId)
  {
    hide Arrived, Classify, FirstRun, PutRun;
    ArrivedSnoc(init, d);
    FirstRunAfterPut(runs, d.run, runId);
    assert d in init + [d] && forall e :: e in init ==> e in init + [d];
    if !Classify(Arrived(init).marks, d.id, d.stamp).Applies() {
      var f := RefusedHasRival(init, d);
    }
  }

  /** Any reordering, and any redelivery, of the same deltas leaves the Hub holding the
      same run under every run id. */
  lemma HubConverges(g: Gated, sessionId: Id, a: seq<Delta>, b: seq<Delta>, runId: Id)
    requires sessionId in g.store.hub.sessions && g.marks == map[]
    requires StampsIdentify(a) && RunsFollowIds(a) && forall d :: d in a <==> d in b
    ensures var ga, gb := DeliverAll(g, sessionId, a), DeliverAll(g, sessionId, b);
      && sessionId in ga.store.hub.sessions && sessionId in gb.store.hub.sessions
      && FirstRun(ga.store.hub.sessions[sessionId].runs, runId) ==
          FirstRun(gb.store.hub.sessions[sessionId].runs, runId)
  {
    hide DeliverAll, FirstRun, Arrived;
    HubHoldsLastWriter(g, sessionId, a, runId);
    HubHoldsLastWriter(g, sessionId, b, runId);
    if d :| d in a && d.run.runId == runId {
      GateConverges(a, b, d.id);
    }
  }
}
