/** The CLI face: its reducer object and the sorted rows of `fleet ls`. */
module Cli {
  import opened Protocol
  import opened MergeSpec
  import opened Faces
  import opened Ordering

  datatype Row = Row(
    sessionId: Id,
    title: string,
    rollupState: State,
    rollupUrgency: Option<Urgency>,
    muted: bool,
    unread: bool,
    runs: seq<AgentRun>)

  function RowOf(s: Session): Row {
    Row(s.sessionId, s.title, s.rollupState, s.rollupUrgency, s.muted, s.unread, s.runs)
  }

  /** The three sort bytes; the lower key is displayed first. */
  function SortKey(row: Row): (int, int, int) {
    (if row.muted then 1 else 0,
     255 - (if row.rollupUrgency.Some? then UrgencyRank(row.rollupUrgency.value) else 0),
     255 - StateRank(row.rollupState))
  }

  /** Key order, ties broken by id. */
  predicate RowLess(a: Row, b: Row) {
    var ka, kb := SortKey(a), SortKey(b);
    || ka.0 < kb.0
    || (ka.0 == kb.0 && ka.1 < kb.1)
    || (ka.0 == kb.0 && ka.1 == kb.1 && ka.2 < kb.2)
    || (ka == kb && TextLess(a.sessionId.text, b.sessionId.text))
  }

  lemma RowLessIsStrict()
    ensures StrictOrder(RowLess)
  {
    forall x: Row ensures !RowLess(x, x) {
      TextLessIrreflexive(x.sessionId.text);
    }
    forall x: Row, y: Row, z: Row | RowLess(x, y) && RowLess(y, z) ensures RowLess(x, z) {
      if SortKey(x) == SortKey(y) == SortKey(z) {
        TextLessTransitive(x.sessionId.text, y.sessionId.text, z.sessionId.text);
      }
    }
  }

  lemma RowLessIsTotal(a: Row, b: Row)
    requires a.sessionId != b.sessionId
    ensures RowLess(a, b) || RowLess(b, a)
  {
    TextLessTotal(a.sessionId.text, b.sessionId.text);
  }

  ghost predicate Keyed(c: Sessions) {
    forall id :: id in c ==> c[id].sessionId == id
  }

  /** What `rows` returns: one row per session, in strictly ascending order. */
  ghost predicate IsRowList(rows: seq<Row>, c: Sessions) {
    && Ascending(rows, RowLess)
    && (forall r :: r in rows <==> r.sessionId in c && r == RowOf(c[r.sessionId]))
  }

  /** There is only one such list, so the map's iteration order cannot show. */
  lemma RowsAreUnique(a: seq<Row>, b: seq<Row>, c: Sessions)
    requires IsRowList(a, c) && IsRowList(b, c)
    ensures a == b
  {
    RowLessIsStrict();
    AscendingIsUnique(a, b, RowLess);
  }

  function RowUrgency(row: Row): nat { if row.rollupUrgency.Some? then UrgencyRank(row.rollupUrgency.value) else 0 }

  /** Muted rows come last; then the more urgent first, then the more pressing state,
      then by id. */
  lemma RowsAreByUrgency(rows: seq<Row>, c: Sessions, i: nat, j: nat)
    requires IsRowList(rows, c) && i < j < |rows|
    ensures var a, b := rows[i], rows[j];
      || (!a.muted && b.muted)
      || (a.muted == b.muted && RowUrgency(a) > RowUrgency(b))
      || (a.muted == b.muted && RowUrgency(a) == RowUrgency(b) && StateRank(a.rollupState) > StateRank(b.rollupState))
      || (a.muted == b.muted && RowUrgency(a) == RowUrgency(b) && StateRank(a.rollupState) == StateRank(b.rollupState)
          && TextLess(a.sessionId.text, b.sessionId.text))
  {
    RowLessIsStrict();
    assert RowLess(rows[i], rows[j]);
    assert rows[i] in rows && rows[j] in rows;
  }

  /** Approval, question, idle-done, and nothing to ask for, however that is said. */
  predicate AsksNoLess(a: Option<Urgency>, b: Option<Urgency>) {
    match b
    case Some(Approval) => a == Some(Approval)
    case Some(Question) => a == Some(Approval) || a == Some(Question)
    case Some(IdleDone) => a == Some(Approval) || a == Some(Question) || a == Some(IdleDone)
    case _ => true
  }

  /** Waiting, error, working, done, idle, dead. */
  predicate PressesNoLess(a: State, b: State) {
    match b
    case Waiting => a == Waiting
    case Error => a == Waiting || a == Error
    case Working => a == Waiting || a == Error || a == Working
    case Done => a != Idle && a != Dead
    case Idle => a != Dead
    case Dead => true
  }

  predicate ShowsSession(row: Row, c: Sessions) {
    && row.sessionId in c
    && var s := c[row.sessionId];
    && row.title == s.title && row.rollupState == s.rollupState && row.rollupUrgency == s.rollupUrgency
    && row.muted == s.muted && row.unread == s.unread && row.runs == s.runs
  }

  ghost predicate MayList(a: Row, b: Row) {
    && (a.muted ==> b.muted)
    && (a.muted == b.muted ==>
          && AsksNoLess(a.rollupUrgency, b.rollupUrgency)
          && (AsksNoLess(b.rollupUrgency, a.rollupUrgency) ==>
                && PressesNoLess(a.rollupState, b.rollupState)
                && (a.rollupState == b.rollupState ==>
                      exists n: nat :: DiffersAt(a.sessionId.text, b.sessionId.text, n))))
  }

  /** The rows one by one: each shows its session, and of two rows the muted one never comes
      first, then the one that asks for less, then the one whose state presses less; rows
      alike in all that go by id, character by character. */
  lemma RowsReadOff(rows: seq<Row>, c: Sessions, i: nat, j: nat)
    requires IsRowList(rows, c) && i <= j < |rows|
    ensures ShowsSession(rows[i], c)
    ensures i < j ==> MayList(rows[i], rows[j])
  {
    assert rows[i] in rows;
    assert i < j ==> RowLess(rows[i], rows[j]);
    TextLessMeaning(rows[i].sessionId.text, rows[j].sessionId.text);
    hide DiffersAt, TextLess;
  }

  lemma CliApplyKeepsKeyed(c: Sessions, e: Event)
    requires Keyed(c)
    ensures Keyed(CliApply(c, e))
  {
    if e.Snapshot? {
      CliStoreAllKeyed(e.sessions);
    }
  }

  lemma {:induction false} CliStoreAllKeyed(list: seq<Session>)
    ensures Keyed(CliStoreAll(map[], list))
  {
    if list != [] {
      CliStoreAllKeyed(list[..|list| - 1]);
    }
  }

  class CliState {
    var sessions: Sessions

    constructor ()
      ensures sessions == map[]
    {
      sessions := map[];
    }

    method Apply(event: Event)
      modifies this
      ensures sessions == CliApply(old(sessions), event)
    {
      match event {
        case Snapshot(list) =>
          sessions := map[];
          for i := 0 to |list|
            invariant sessions == CliStoreAll(map[], list[..i])
          {
            assert list[..i + 1][..i] == list[..i];
            sessions := sessions[list[i].sessionId := list[i]];
          }
          assert list[..|list|] == list;
        case SessionAdded(session) => sessions := sessions[session.sessionId := session];
        case SessionUpdated(session) => sessions := sessions[session.sessionId := session];
        case SessionRemoved(id) => sessions := sessions - {id};
        case RunAdded(id, run) => UpsertRun(id, run);
        case RunUpdated(id, run) => UpsertRun(id, run);
        case RunRemoved(id, runId) =>
          if id in sessions {
            var s := sessions[id];
            sessions := sessions[id := Rolled(s.(runs := DropRun(s.runs, runId)))];
          }
      }
    }

    method UpsertRun(id: Id, run: AgentRun)
      modifies this
      ensures sessions == CliPutRun(old(sessions), id, run)
    {
      if id in sessions {
        var s := sessions[id];
        sessions := sessions[id := Rolled(s.(runs := PutRun(s.runs, run)))];
      }
    }

    /** Collect the rows in whatever order the map yields its sessions, then sort. */
    method Rows() returns (rows: seq<Row>)
      requires Keyed(sessions)
      ensures IsRowList(rows, sessions)
    {
      var list: seq<Row> := [];
      var todo := sessions.Keys;
      while todo != {}
        invariant todo <= sessions.Keys
        invariant forall r :: r in list <==>
          r.sessionId in sessions && r.sessionId !in todo && r == RowOf(sessions[r.sessionId])
        invariant forall i, j :: 0 <= i < j < |list| ==> list[i].sessionId != list[j].sessionId
        decreases todo
      {
        var id :| id in todo;
        assert forall r :: r in list ==> r.sessionId != id;
        list := list + [RowOf(sessions[id])];
        todo := todo - {id};
      }
      rows := SortRows(list);
    }
  }

  method SortRows(list: seq<Row>) returns (rows: seq<Row>)
    requires forall i, j :: 0 <= i < j < |list| ==> list[i].sessionId != list[j].sessionId
    ensures Ascending(rows, RowLess)
    ensures forall r :: r in rows <==> r in list
  {
    rows := [];
    RowLessIsStrict();
    for i := 0 to |list|
      invariant Ascending(rows, RowLess)
      invariant forall r :: r in rows <==> r in list[..i]
    {
      assert list[..i + 1] == list[..i] + [list[i]];
      forall r | r in rows ensures RowLess(list[i], r) || RowLess(r, list[i]) {
        RowLessIsTotal(list[i], r);
      }
      InsertByAscends(list[i], rows, RowLess);
      InsertByElements(list[i], rows, RowLess);
      rows := InsertBy(list[i], rows, RowLess);
    }
    assert list[..|list|] == list;
  }
}
