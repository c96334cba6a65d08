/** The product objects shared by the Hub and every face, and the rollup ordering
    that decides which run speaks for its session. */
module Protocol {

  datatype Option<+T> = None | Some(value: T)

  /** An opaque identifier; its text only matters where a face sorts by it. */
  datatype Id = Id(text: string)

  datatype State = Working | Waiting | Idle | Done | Error | Dead

  datatype Urgency = Approval | Question | IdleDone | NoUrgency

  datatype Confidence = High | Inferred

  /** One agent run. Time stamps are abstract instants; `details` stands for the
      descriptive fields no operation of this model inspects. */
  datatype AgentRun = AgentRun(
    runId: Id,
    nativeId: Id,
    state: State,
    urgency: Option<Urgency>,
    confidence: Confidence,
    waitingSince: Option<int>,
    lastMessage: Option<string>,
    details: string)

  datatype Session = Session(
    sessionId: Id,
    title: string,
    runs: seq<AgentRun>,
    rollupState: State,
    rollupUrgency: Option<Urgency>,
    muted: bool,
    soloed: bool,
    unread: bool,
    details: string)

  datatype Event =
    | Snapshot(sessions: seq<Session>)
    | SessionAdded(session: Session)
    | SessionUpdated(session: Session)
    | SessionRemoved(sessionId: Id)
    | RunAdded(ownerId: Id, run: AgentRun)
    | RunUpdated(ownerId: Id, run: AgentRun)
    | RunRemoved(ownerId: Id, runId: Id)

  // ---------------------------------------------------------------- rollup

  function StateRank(s: State): nat {
    match s
    case Waiting => 5
    case Error => 4
    case Working => 3
    case Done => 2
    case Idle => 1
    case Dead => 0
  }

  function UrgencyRank(u: Urgency): nat {
    match u
    case Approval => 3
    case Question => 2
    case IdleDone => 1
    case NoUrgency => 0
  }

  /** A run that names no urgency contributes the explicit "none". */
  function UrgencyOf(run: AgentRun): Urgency {
    if run.urgency.Some? then run.urgency.value else NoUrgency
  }

  function RollupState(runs: seq<AgentRun>): Option<State> {
    if runs == [] then None
    else
      var last := runs[|runs| - 1].state;
      match RollupState(runs[..|runs| - 1])
      case None => Some(last)
      case Some(best) => Some(if StateRank(best) > StateRank(last) then best else last)
  }

  function RollupUrgency(runs: seq<AgentRun>): Option<Urgency> {
    if runs == [] then None
    else
      var last := UrgencyOf(runs[|runs| - 1]);
      match RollupUrgency(runs[..|runs| - 1])
      case None => Some(last)
      case Some(best) => Some(if UrgencyRank(best) > UrgencyRank(last) then best else last)
  }

  /** Absence and the explicit "none" are the same thing on the wire. */
  function NormalizedUrgency(runs: seq<AgentRun>): Option<Urgency> {
    match RollupUrgency(runs)
    case Some(u) => if u == NoUrgency then None else Some(u)
    case None => None
  }

  /** The session with both rollups recomputed; an empty session is idle. */
  function Rolled(s: Session): Session {
    var rolled := RollupState(s.runs);
    s.(rollupState := if rolled.Some? then rolled.value else Idle,
       rollupUrgency := NormalizedUrgency(s.runs))
  }

  /** What a rollup means, without saying how it is computed: some run has the
      value and no run has a more urgent one. */
  ghost predicate MostUrgentState(runs: seq<AgentRun>, s: State) {
    && (exists i :: 0 <= i < |runs| && runs[i].state == s)
    && (forall i :: 0 <= i < |runs| ==> StateRank(runs[i].state) <= StateRank(s))
  }

  ghost predicate MostUrgentUrgency(runs: seq<AgentRun>, u: Urgency) {
    && (exists i :: 0 <= i < |runs| && UrgencyOf(runs[i]) == u)
    && (forall i :: 0 <= i < |runs| ==> UrgencyRank(UrgencyOf(runs[i])) <= UrgencyRank(u))
  }

  lemma {:induction false} RollupStateIsMostUrgent(runs: seq<AgentRun>)
    ensures RollupState(runs).None? <==> runs == []
    ensures RollupState(runs).Some? ==> MostUrgentState(runs, RollupState(runs).value)
  {
    if runs != [] {
      var n := |runs| - 1;
      var init := runs[..n];
      RollupStateIsMostUrgent(init);
      if init != [] {
        var i :| 0 <= i < n && init[i].state == RollupState(init).value;
        assert runs[i].state == RollupState(init).value;
        forall j | 0 <= j < n ensures StateRank(runs[j].state) <= StateRank(RollupState(init).value) {
          assert runs[j] == init[j];
        }
      }
    }
  }

  lemma {:induction false} RollupUrgencyIsMostUrgent(runs: seq<AgentRun>)
    ensures RollupUrgency(runs).None? <==> runs == []
    ensures RollupUrgency(runs).Some? ==> MostUrgentUrgency(runs, RollupUrgency(runs).value)
  {
    if runs != [] {
      var n := |runs| - 1;
      var init := runs[..n];
      RollupUrgencyIsMostUrgent(init);
      if init != [] {
        var i :| 0 <= i < n && UrgencyOf(init[i]) == RollupUrgency(init).value;
        assert UrgencyOf(runs[i]) == RollupUrgency(init).value;
        forall j | 0 <= j < n ensures UrgencyRank(UrgencyOf(runs[j])) <= UrgencyRank(RollupUrgency(init).value) {
          assert runs[j] == init[j];
        }
      }
    }
  }

  // --------------------------------------------------- the rollup, case by case

  predicate AnyIn(runs: seq<AgentRun>, s: State) {
    exists i :: 0 <= i < |runs| && runs[i].state == s
  }

  predicate AnyAsks(runs: seq<AgentRun>, u: Urgency) {
    exists i :: 0 <= i < |runs| && runs[i].urgency == Some(u)
  }

  /** The state a list of runs rolls up to: waiting speaks first, then error, working, done
      and idle; dead only if every run is; an empty list is idle. */
  predicate StateByCases(runs: seq<AgentRun>, s: State) {
    if runs == [] then s == Idle
    else if AnyIn(runs, Waiting) then s == Waiting
    else if AnyIn(runs, Error) then s == Error
    else if AnyIn(runs, Working) then s == Working
    else if AnyIn(runs, Done) then s == Done
    else if AnyIn(runs, Idle) then s == Idle
    else s == Dead && forall i :: 0 <= i < |runs| ==> runs[i].state == Dead
  }

  /** The urgency: approval, then question, then idle-done; absent if no run asks. */
  predicate UrgencyByCases(runs: seq<AgentRun>, u: Option<Urgency>) {
    if AnyAsks(runs, Approval) then u == Some(Approval)
    else if AnyAsks(runs, Question) then u == Some(Question)
    else if AnyAsks(runs, IdleDone) then u == Some(IdleDone)
    else u == None
  }

  lemma {:induction false} RollupStateByCases(runs: seq<AgentRun>)
    requires runs != []
    ensures RollupState(runs).Some? && StateByCases(runs, RollupState(runs).value)
  {
    var init, last := runs[..|runs| - 1], runs[|runs| - 1];
    if init != [] { RollupStateByCases(init); }
    forall s ensures AnyIn(runs, s) <==> AnyIn(init, s) || last.state == s {
      if AnyIn(init, s) {
        var i :| 0 <= i < |init| && init[i].state == s;
        assert runs[i].state == s;
      }
      if last.state == s { assert runs[|runs| - 1].state == s; }
    }
    hide AnyIn;
  }

  lemma {:induction false} RollupUrgencyByCases(runs: seq<AgentRun>)
    ensures UrgencyByCases(runs, NormalizedUrgency(runs))
  {
    if runs != [] {
      var init, last := runs[..|runs| - 1], runs[|runs| - 1];
      RollupUrgencyByCases(init);
      forall u ensures AnyAsks(runs, u) <==> AnyAsks(init, u) || last.urgency == Some(u) {
        if AnyAsks(init, u) {
          var i :| 0 <= i < |init| && init[i].urgency == Some(u);
          assert runs[i].urgency == Some(u);
        }
        if last.urgency == Some(u) { assert runs[|runs| - 1].urgency == Some(u); }
      }
      hide AnyAsks;
    }
  }

  /** What recomputing the rollups leaves, case by case, and nothing else touched. */
  lemma RolledByCases(s: Session)
    ensures var t := Rolled(s);
      && StateByCases(s.runs, t.rollupState) && UrgencyByCases(s.runs, t.rollupUrgency)
      && t == s.(rollupState := t.rollupState, rollupUrgency := t.rollupUrgency)
  {
    if s.runs != [] { RollupStateByCases(s.runs); }
    RollupUrgencyByCases(s.runs);
    hide StateByCases, UrgencyByCases, NormalizedUrgency;
  }

  // -------------------------------------------------------- run-list edits

  predicate HasRun(runs: seq<AgentRun>, runId: Id) {
    exists i :: 0 <= i < |runs| && runs[i].runId == runId
  }

  /** Replace the first run with the same id in its slot, else append. */
  function PutRun(runs: seq<AgentRun>, run: AgentRun): seq<AgentRun> {
    if runs == [] then [run]
    else if runs[0].runId == run.runId then [run] + runs[1..]
    else [runs[0]] + PutRun(runs[1..], run)
  }

  /** Drop every run with the given id, keeping the others in order. */
  function DropRun(runs: seq<AgentRun>, runId: Id): seq<AgentRun> {
    if runs == [] then []
    else if runs[0].runId == runId then DropRun(runs[1..], runId)
    else [runs[0]] + DropRun(runs[1..], runId)
  }
}
