/** Optimistic session actions in the rail: local mutations, late failures guarded
    by an inbox revision, and pushed inboxes, under every interleaving. */
module Optimistic {
  import opened Protocol
  import opened MergeSpec
  import opened Attention
  import opened Rail

  datatype Kind = MuteKey | SoloKey | FocusKey

  datatype Key = Key(sessionId: Id, kind: Kind)

  /** The optimistic actions; a dismissal only touches the inbox once the backend took it. */
  predicate IsOptimistic(action: Action) { !action.Dismiss? }

  function KeyOf(action: Action): Key
    requires IsOptimistic(action)
  {
    Key(action.sessionId,
        match action case SetMuted(_, _) => MuteKey case SetSoloed(_, _) => SoloKey case Acknowledge(_) => FocusKey)
  }

  datatype Pending = Pending(previous: Inbox, revision: nat)

  datatype RailState = RailState(inbox: Inbox, revision: nat, pending: map<Key, Pending>)

  datatype RailStep =
    | Start(action: Action)
    | Succeed(key: Key)
    | Fail(key: Key)
    | Push(pushed: Inbox)
    | Dismissed(sessionId: Id)
    | Closed(sessionId: Id)

  const Boot := RailState(Inbox([], 0, 0, false), 0, map[])

  function SetInbox(st: RailState, next: Inbox): RailState {
    st.(inbox := next, revision := st.revision + 1)
  }

  predicate HasRowFor(inbox: Inbox, id: Id) {
    exists i :: 0 <= i < |inbox.tabs| && inbox.tabs[i].Id() == id
  }

  /** Muting and soloing wait for every action on the session; an acknowledgement only
      for another one. */
  predicate Busy(pending: map<Key, Pending>, action: Action) {
    || Key(action.sessionId, FocusKey) in pending
    || (!action.Acknowledge?
        && (Key(action.sessionId, MuteKey) in pending || Key(action.sessionId, SoloKey) in pending))
  }

  /** What the row and focus handlers check before they act: nothing conflicting in
      flight, a row to act on, and a live link. */
  predicate Accepts(st: RailState, action: Action) {
    && IsOptimistic(action)
    && !Busy(st.pending, action)
    && HasRowFor(st.inbox, action.sessionId)
    && st.inbox.connected
  }

  predicate RollsBack(st: RailState, key: Key) {
    key in st.pending && st.pending[key].revision == st.revision
  }

  function Next(st: RailState, step: RailStep): RailState {
    match step
    case Start(action) =>
      if !Accepts(st, action) then st
      else
        var st' := SetInbox(st, ApplyLocal(st.inbox, action));
        st'.(pending := st'.pending[KeyOf(action) := Pending(st.inbox, st'.revision)])
    case Succeed(key) => st.(pending := st.pending - {key})
    case Fail(key) =>
      var st' := if RollsBack(st, key) then SetInbox(st, st.pending[key].previous) else st;
      st'.(pending := st'.pending - {key})
    case Push(next) => SetInbox(st, next)
    case Dismissed(id) => SetInbox(st, ApplyLocal(st.inbox, Dismiss(id)))
    case Closed(id) => SetInbox(st, ApplyLocal(st.inbox, Dismiss(id)))
  }

  function Ran(steps: seq<RailStep>): RailState {
    if steps == [] then Boot else Next(Ran(steps[..|steps| - 1]), steps[|steps| - 1])
  }

  /** The rail's mutable state. */
  class RailPage {
    var inbox: Inbox
    var inboxRevision: nat
    var sessionActions: map<Key, Pending>

    ghost function State(): RailState reads this { RailState(inbox, inboxRevision, sessionActions) }

    constructor ()
      ensures State() == Boot
    {
      inbox, inboxRevision, sessionActions := Inbox([], 0, 0, false), 0, map[];
    }

    method ReplaceInbox(next: Inbox)
      modifies this
      ensures State() == SetInbox(old(State()), next)
    {
      inbox := next;
      inboxRevision := inboxRevision + 1;
    }

    /** The synchronous half of an optimistic action: remember, mutate, stamp. */
    method Begin(action: Action)
      requires IsOptimistic(action)
      modifies this
      ensures State() == Next(old(State()), Start(action))
    {
      if Busy(sessionActions, action) || !HasRowFor(inbox, action.sessionId) || !inbox.connected {
        return;
      }
      var key := KeyOf(action);
      var previous := inbox;
      ReplaceInbox(ApplyLocal(inbox, action));
      sessionActions := sessionActions[key := Pending(previous, inboxRevision)];
    }

    /** The asynchronous half: the backend call resolved or was rejected. */
    method Finish(key: Key, failed: bool)
      modifies this
      ensures State() == Next(old(State()), if failed then Fail(key) else Succeed(key))
    {
      if failed && key in sessionActions && inboxRevision == sessionActions[key].revision {
        ReplaceInbox(sessionActions[key].previous);
      }
      sessionActions := sessionActions - {key};
    }

    /** Drop a row: a confirmed dismissal does it, and closing a server does it before
        asking anyone. */
    method RemoveInboxSession(id: Id)
      modifies this
      ensures State() == Next(old(State()), Dismissed(id)) == Next(old(State()), Closed(id))
    {
      ReplaceInbox(ApplyLocal(inbox, Dismiss(id)));
    }
  }

  // ------------------------------------------------------------- histories

  /** The step at which the action in flight under `key` was started. */
  function StartOf(steps: seq<RailStep>, key: Key): Option<nat> {
    if steps == [] then None
    else
      var n := |steps| - 1;
      match steps[n]
      case Start(action) =>
        if Accepts(Ran(steps[..n]), action) && KeyOf(action) == key then Some(n) else StartOf(steps[..n], key)
      case Succeed(k) => if k == key then None else StartOf(steps[..n], key)
      case Fail(k) => if k == key then None else StartOf(steps[..n], key)
      case _ => StartOf(steps[..n], key)
  }

  ghost predicate InFlightSince(steps: seq<RailStep>, key: Key, i: nat) {
    && i < |steps|
    && key in Ran(steps).pending
    && Ran(steps).pending[key] == Pending(Ran(steps[..i]).inbox, Ran(steps[..i + 1]).revision)
  }

  lemma {:induction false} PendingIsHistory(steps: seq<RailStep>, key: Key)
    ensures key in Ran(steps).pending <==> StartOf(steps, key).Some?
    ensures StartOf(steps, key).Some? ==> InFlightSince(steps, key, StartOf(steps, key).value)
  {
    hide ApplyLocal;
    if steps != [] {
      var n := |steps| - 1;
      PendingIsHistory(steps[..n], key);
      assert steps[..n + 1] == steps;
      if StartOf(steps, key).Some? && StartOf(steps, key).value < n {
        var i := StartOf(steps, key).value;
        assert steps[..n][..i] == steps[..i] && steps[..n][..i + 1] == steps[..i + 1];
      }
    }
  }

  /** Exactly when a click takes effect, from the history: the link is up, the session has a
      row, no acknowledgement of it is in flight, and, unless the click is one itself, no
      mute or solo of it is either. A click that does not take effect changes nothing. */
  lemma ClickTakesEffect(steps: seq<RailStep>, action: Action)
    requires IsOptimistic(action)
    ensures var id, st, st' := action.sessionId, Ran(steps), Ran(steps + [Start(action)]);
      if st.inbox.connected && (exists i :: 0 <= i < |st.inbox.tabs| && st.inbox.tabs[i].Id() == id)
         && StartOf(steps, Key(id, FocusKey)).None?
         && (action.Acknowledge? || (StartOf(steps, Key(id, MuteKey)).None? && StartOf(steps, Key(id, SoloKey)).None?))
      then st'.inbox == ApplyLocal(st.inbox, action) && st'.revision == st.revision + 1
           && StartOf(steps + [Start(action)], KeyOf(action)) == Some(|steps|)
      else st' == st
  {
    hide ApplyLocal;
    assert (steps + [Start(action)])[..|steps|] == steps;
    PendingIsHistory(steps, Key(action.sessionId, FocusKey));
    PendingIsHistory(steps, Key(action.sessionId, MuteKey));
    PendingIsHistory(steps, Key(action.sessionId, SoloKey));
  }

  /** The latest inbox pushed by the host. */
  function LastPush(steps: seq<RailStep>): Inbox {
    if steps == [] then Boot.inbox
    else
      var n := |steps| - 1;
      if steps[n].Push? then steps[n].pushed else LastPush(steps[..n])
  }

  /** A local mutation and the step that made it. */
  datatype Made = Made(at: nat, action: Action)

  function ActionsOf(made: seq<Made>): seq<Action> {
    seq(|made|, i requires 0 <= i < |made| => made[i].action)
  }

  /** The local mutations the inbox shows: those made since the last push, forgetting the
      ones a failure rolled back. */
  function InForce(steps: seq<RailStep>): seq<Made> {
    if steps == [] then []
    else
      var n := |steps| - 1;
      var before := InForce(steps[..n]);
      match steps[n]
      case Start(action) => if Accepts(Ran(steps[..n]), action) then before + [Made(n, action)] else before
      case Succeed(_) => before
      case Fail(key) =>
        var start := StartOf(steps[..n], key);
        if RollsBack(Ran(steps[..n]), key) && start.Some? && start.value < n then InForce(steps[..start.value])
        else before
      case Push(_) => []
      case Dismissed(id) => before + [Made(n, Dismiss(id))]
      case Closed(id) => before + [Made(n, Dismiss(id))]
  }

  function ApplyLocals(inbox: Inbox, actions: seq<Action>): Inbox {
    if actions == [] then inbox
    else ApplyLocal(ApplyLocals(inbox, actions[..|actions| - 1]), actions[|actions| - 1])
  }

  /** Revisions only grow, and an unchanged revision means nothing replaced the inbox. */
  lemma {:induction false} RevisionGuards(steps: seq<RailStep>, j: nat)
    requires j <= |steps|
    ensures Ran(steps[..j]).revision <= Ran(steps).revision
    ensures Ran(steps[..j]).revision == Ran(steps).revision ==>
      Ran(steps[..j]).inbox == Ran(steps).inbox && LastPush(steps[..j]) == LastPush(steps)
  {
    if j == |steps| {
      assert steps[..j] == steps;
    } else {
      var n := |steps| - 1;
      assert steps[..n][..j] == steps[..j];
      RevisionGuards(steps[..n], j);
    }
  }

  /** When an action fails, the inbox is restored to exactly what it was before the
      action started if nothing replaced it since, and is otherwise left alone. */
  lemma FailureRestoresOrLeaves(steps: seq<RailStep>, key: Key)
    requires StartOf(steps, key).Some?
    ensures var i := StartOf(steps, key).value;
      && i < |steps|
      && Ran(steps + [Fail(key)]).inbox ==
         (if Ran(steps).revision == Ran(steps[..i + 1]).revision then Ran(steps[..i]).inbox else Ran(steps).inbox)
      && (Ran(steps).revision == Ran(steps[..i + 1]).revision ==> Ran(steps).inbox == Ran(steps[..i + 1]).inbox)
      && key !in Ran(steps + [Fail(key)]).pending
  {
    PendingIsHistory(steps, key);
    RevisionGuards(steps, StartOf(steps, key).value + 1);
    assert (steps + [Fail(key)])[..|steps|] == steps;
  }

  lemma {:induction false} StartIsLocal(steps: seq<RailStep>, key: Key)
    requires StartOf(steps, key).Some?
    ensures var i := StartOf(steps, key).value; i < |steps| && steps[i].Start?
  {
    var n := |steps| - 1;
    var i := StartOf(steps[..n], key);
    if i.Some? {
      StartIsLocal(steps[..n], key);
      assert steps[..n][i.value] == steps[i.value];
    }
  }

  /** A rollback goes back to the inbox of an earlier moment under the same push. */
  lemma RollbackGoesBack(steps: seq<RailStep>, key: Key)
    requires RollsBack(Ran(steps), key)
    ensures StartOf(steps, key).Some?
    ensures var i := StartOf(steps, key).value;
      i < |steps| && Ran(steps).pending[key].previous == Ran(steps[..i]).inbox &&
          LastPush(steps[..i]) == LastPush(steps)
  {
    hide ApplyLocal;
    PendingIsHistory(steps, key);
    var i := StartOf(steps, key).value;
    StartIsLocal(steps, key);
    RevisionGuards(steps, i + 1);
    assert steps[..i + 1][..i] == steps[..i];
  }

  lemma ActionsOfSnoc(made: seq<Made>, m: Made)
    ensures ActionsOf(made + [m]) == ActionsOf(made) + [m.action]
  {
  }

  /** The visible inbox always derives from the latest pushed one. */
  lemma {:induction false} InboxDerivesFromLastPush(steps: seq<RailStep>)
    ensures Ran(steps).inbox == ApplyLocals(LastPush(steps), ActionsOf(InForce(steps)))
    decreases |steps|
  {
    hide ApplyLocal, StartOf, ActionsOf;
    NoActions();
    if steps != [] {
      var n := |steps| - 1;
      var before := steps[..n];
      InboxDerivesFromLastPush(before);
      match steps[n]
      case Start(action) =>
        ActionsOfSnoc(InForce(before), Made(n, action));
      case Dismissed(id) =>
        ActionsOfSnoc(InForce(before), Made(n, Dismiss(id)));
      case Closed(id) =>
        ActionsOfSnoc(InForce(before), Made(n, Dismiss(id)));
      case Fail(key) =>
        if RollsBack(Ran(before), key) {
          RollbackGoesBack(before, key);
          var i := StartOf(before, key).value;
          assert before[..i] == steps[..i];
          InboxDerivesFromLastPush(steps[..i]);
        }
      case _ =>
    }
  }

  lemma NoActions()
    ensures ActionsOf([]) == []
  {
  }

  // -------------------------------------------------- sent and in force

  /** The first step after the last push. */
  function LastPushAt(steps: seq<RailStep>): nat {
    if steps == [] then 0
    else
      var n := |steps| - 1;
      if steps[n].Push? then n + 1 else LastPushAt(steps[..n])
  }

  /** The entries made at other steps than `gone`. */
  function Kept(made: seq<Made>, gone: set<nat>): seq<Made> {
    if made == [] then []
    else
      var n := |made| - 1;
      Kept(made[..n], gone) + (if made[n].at in gone then [] else [made[n]])
  }

  /** What the Hub was told since the last push: every accepted action and dismissal,
      minus every action that failed. Closing a server tells the Hub nothing. */
  function Sent(steps: seq<RailStep>): seq<Made> {
    if steps == [] then []
    else
      var n := |steps| - 1;
      var before := Sent(steps[..n]);
      match steps[n]
      case Start(action) => if Accepts(Ran(steps[..n]), action) then before + [Made(n, action)] else before
      case Succeed(_) => before
      case Fail(key) =>
        var start := StartOf(steps[..n], key);
        if start.Some? then Kept(before, {start.value}) else before
      case Push(_) => []
      case Dismissed(id) => before + [Made(n, Dismiss(id))]
      case Closed(_) => before
  }

  /** An action started since the last push failed when the inbox had moved on since its
      start, so that nothing was rolled back. */
  ghost predicate StrandedAt(steps: seq<RailStep>, j: int) {
    && 0 <= j < |steps| && steps[j].Fail?
    && var start := StartOf(steps[..j], steps[j].key);
    && start.Some? && LastPushAt(steps) <= start.value
    && !RollsBack(Ran(steps[..j]), steps[j].key)
  }

  /** A server was closed, and its row dropped, since the last push. */
  predicate ClosedAt(steps: seq<RailStep>, j: int) {
    LastPushAt(steps) <= j < |steps| && steps[j].Closed?
  }

  ghost predicate Undisturbed(steps: seq<RailStep>) {
    forall j :: !StrandedAt(steps, j) && !ClosedAt(steps, j)
  }

  /** The steps whose mutation the inbox shows although the Hub will not: stranded starts
      and closed rows. */
  function Unsent(steps: seq<RailStep>): set<nat> {
    if steps == [] then {}
    else
      var n := |steps| - 1;
      var before := Unsent(steps[..n]);
      match steps[n]
      case Push(_) => {}
      case Closed(_) => before + {n}
      case Fail(key) =>
        var start := StartOf(steps[..n], key);
        if start.Some? && LastPushAt(steps[..n]) <= start.value && !RollsBack(Ran(steps[..n]), key)
        then before + {start.value} else before
      case _ => before
  }

  lemma {:induction false} PushIsPast(steps: seq<RailStep>)
    ensures LastPushAt(steps) <= |steps|
  {
    if steps != [] { PushIsPast(steps[..|steps| - 1]); }
  }

  /** Steps in play are recent, and lie behind us. */
  lemma {:induction false} InForceIsRecent(steps: seq<RailStep>)
    ensures forall m :: m in InForce(steps) ==> LastPushAt(steps) <= m.at < |steps|
    ensures forall i :: i in Unsent(steps) ==> i < |steps|
    decreases |steps|
  {
    hide Accepts, RollsBack;
    if steps != [] {
      var n := |steps| - 1;
      InForceIsRecent(steps[..n]);
      PushIsPast(steps[..n]);
      if steps[n].Fail? && StartOf(steps[..n], steps[n].key).Some? {
        var key := steps[n].key;
        var i := StartOf(steps[..n], key).value;
        StartIsLocal(steps[..n], key);
        assert steps[..n][..i] == steps[..i];
        if RollsBack(Ran(steps[..n]), key) {
          RollbackInForce(steps[..n], key);
          InForceIsRecent(steps[..n]);
          assert forall m :: m in InForce(steps[..i]) ==> m in InForce(steps[..n]);
        }
      }
    }
  }

  /** As long as the revision stands, the same mutations are in force. */
  lemma {:induction false} Unmoved(steps: seq<RailStep>, j: nat)
    requires j <= |steps| && Ran(steps[..j]).revision == Ran(steps).revision
    ensures InForce(steps[..j]) == InForce(steps) && LastPushAt(steps[..j]) == LastPushAt(steps)
  {
    if j == |steps| {
      assert steps[..j] == steps;
    } else {
      hide ApplyLocal, StartOf, Accepts;
      var n := |steps| - 1;
      assert steps[..n][..j] == steps[..j];
      RevisionGuards(steps[..n], j);
      Unmoved(steps[..n], j);
    }
  }

  /** A rollback undoes the newest mutation in force. */
  lemma RollbackInForce(steps: seq<RailStep>, key: Key)
    requires RollsBack(Ran(steps), key)
    ensures StartOf(steps, key).Some? && StartOf(steps, key).value < |steps|
    ensures var i := StartOf(steps, key).value;
      && steps[i].Start?
      && InForce(steps) == InForce(steps[..i]) + [Made(i, steps[i].action)]
  {
    PendingIsHistory(steps, key);
    StartIsLocal(steps, key);
    var i := StartOf(steps, key).value;
    Unmoved(steps, i + 1);
    StartWasAccepted(steps, key);
    assert steps[..i + 1][..i] == steps[..i];
  }

  lemma {:induction false} StartWasAccepted(steps: seq<RailStep>, key: Key)
    requires StartOf(steps, key).Some?
    ensures var i := StartOf(steps, key).value;
      i < |steps| && steps[i].Start? && Accepts(Ran(steps[..i]), steps[i].action) && KeyOf(steps[i].action) == key
  {
    hide Ran, Busy, HasRowFor;
    var n := |steps| - 1;
    var i := StartOf(steps[..n], key);
    if i.Some? {
      StartWasAccepted(steps[..n], key);
      assert steps[..n][i.value] == steps[i.value] && steps[..n][..i.value] == steps[..i.value];
    }
  }

  /** What is in flight has not failed, and if it started since the push it shows. */
  lemma {:induction false} InFlightShows(steps: seq<RailStep>, key: Key)
    requires StartOf(steps, key).Some?
    ensures var i := StartOf(steps, key).value;
      && i !in Unsent(steps)
      && (LastPushAt(steps) <= i ==> exists m :: m in InForce(steps) && m.at == i)
  {
    var n := |steps| - 1;
    var before := steps[..n];
    var i := StartOf(steps, key).value;
    InForceIsRecent(before);
    StartWasAccepted(steps, key);
    if i == n {
      assert Made(n, steps[n].action) in InForce(steps);
    } else {
      InFlightShows(before, key);
      if steps[n].Fail? && StartOf(before, steps[n].key).Some? {
        StartWasAccepted(before, steps[n].key);
        var k := StartOf(before, steps[n].key).value;
        assert k != i;
        if RollsBack(Ran(before), steps[n].key) {
          RollbackInForce(before, steps[n].key);
          assert before[..k] == steps[..k];
        }
      }
    }
  }

  lemma {:induction false} KeptMembers(made: seq<Made>, gone: set<nat>)
    ensures forall m :: m in Kept(made, gone) <==> m in made && m.at !in gone
    ensures |Kept(made, gone)| <= |made|
    ensures |Kept(made, gone)| == |made| <==> forall m :: m in made ==> m.at !in gone
  {
    if made != [] {
      var n := |made| - 1;
      KeptMembers(made[..n], gone);
      assert made == made[..n] + [made[n]];
    }
  }

  lemma {:induction false} KeptAll(made: seq<Made>, gone: set<nat>)
    requires forall m :: m in made ==> m.at !in gone
    ensures Kept(made, gone) == made
  {
    if made != [] {
      var n := |made| - 1;
      assert made == made[..n] + [made[n]];
      KeptAll(made[..n], gone);
    }
  }

  lemma {:induction false} KeptTwice(made: seq<Made>, gone: set<nat>, more: set<nat>)
    ensures Kept(Kept(made, gone), more) == Kept(made, gone + more)
  {
    if made != [] {
      var n := |made| - 1;
      KeptTwice(made[..n], gone, more);
      KeptSnoc(Kept(made[..n], gone), made[n], more);
      assert Kept(made[..n], gone) + [] == Kept(made[..n], gone);
    }
  }

  lemma KeptSnoc(made: seq<Made>, m: Made, gone: set<nat>)
    ensures Kept(made + [m], gone) == Kept(made, gone) + (if m.at in gone then [] else [m])
  {
    assert (made + [m])[..|made|] == made;
  }

  /** Leaving out a step that made nothing here leaves out nothing. */
  lemma {:induction false} KeptIgnores(made: seq<Made>, gone: set<nat>, at: nat)
    requires forall m :: m in made ==> m.at != at
    ensures Kept(made, gone + {at}) == Kept(made, gone)
  {
    if made != [] {
      var n := |made| - 1;
      assert made == made[..n] + [made[n]];
      KeptIgnores(made[..n], gone, at);
    }
  }

  ghost predicate AllMade(made: seq<Made>, steps: set<nat>) {
    forall i :: i in steps ==> exists m :: m in made && m.at == i
  }

  /** One step that is not a failure, on all three at once. */
  lemma StepInPlay(steps: seq<RailStep>)
    requires steps != [] && !steps[|steps| - 1].Fail?
    ensures var n := |steps| - 1; var before := steps[..n];
      match steps[n]
      case Start(action) =>
        && InForce(steps) ==
             (if Accepts(Ran(before), action) then InForce(before) + [Made(n, action)] else InForce(before))
        && Sent(steps) == (if Accepts(Ran(before), action) then Sent(before) + [Made(n, action)] else Sent(before))
        && Unsent(steps) == Unsent(before)
      case Dismissed(id) =>
        && InForce(steps) == InForce(before) + [Made(n, Dismiss(id))]
        && Sent(steps) == Sent(before) + [Made(n, Dismiss(id))]
        && Unsent(steps) == Unsent(before)
      case Closed(id) =>
        && InForce(steps) == InForce(before) + [Made(n, Dismiss(id))] && Sent(steps) == Sent(before)
        && Unsent(steps) == Unsent(before) + {n}
      case Push(_) => InForce(steps) == [] && Sent(steps) == [] && Unsent(steps) == {}
      case _ => InForce(steps) == InForce(before) && Sent(steps) == Sent(before) && Unsent(steps) == Unsent(before)
  {
    hide Accepts, Ran, StartOf, LastPushAt, RollsBack;
  }

  lemma NothingMade()
    ensures InForce([]) == [] && Sent([]) == [] && Unsent([]) == {} && Kept([], {}) == []
  {
  }

  /** What was sent is what is in force, stranded starts and closed rows aside. */
  lemma {:induction false} SentIsKept(steps: seq<RailStep>)
    ensures Sent(steps) == Kept(InForce(steps), Unsent(steps))
    ensures AllMade(InForce(steps), Unsent(steps))
  {
    hide InForce, Sent, Unsent, Kept, Ran, Accepts;
    NothingMade();
    if steps != [] {
      var n := |steps| - 1;
      var before := steps[..n];
      var made, unsent := InForce(before), Unsent(before);
      SentIsKept(before);
      InForceIsRecent(before);
      if steps[n].Fail? {
        FailKept(steps, steps[n].key);
      } else {
        StepInPlay(steps);
        match steps[n]
        case Start(action) => if Accepts(Ran(before), action) { MadeKept(made, unsent, Made(n, action)); }
        case Dismissed(id) => MadeKept(made, unsent, Made(n, Dismiss(id)));
        case Closed(id) => ClosedKept(made, unsent, Made(n, Dismiss(id)));
        case _ =>
      }
    }
  }

  lemma ClosedKept(made: seq<Made>, unsent: set<nat>, m: Made)
    requires AllMade(made, unsent) && forall o :: o in made ==> o.at != m.at
    ensures Kept(made + [m], unsent + {m.at}) == Kept(made, unsent) && AllMade(made + [m], unsent + {m.at})
  {
    KeptSnoc(made, m, unsent + {m.at});
    KeptIgnores(made, unsent, m.at);
    hide Kept;
    assert m in made + [m];
  }

  lemma MadeKept(made: seq<Made>, unsent: set<nat>, m: Made)
    requires m.at !in unsent && AllMade(made, unsent)
    ensures Kept(made + [m], unsent) == Kept(made, unsent) + [m] && AllMade(made + [m], unsent)
  {
    KeptSnoc(made, m, unsent);
  }

  lemma FailInPlay(steps: seq<RailStep>, key: Key)
    requires steps != [] && steps[|steps| - 1] == Fail(key)
    ensures var before := steps[..|steps| - 1]; var start := StartOf(before, key);
      && InForce(steps) == (if RollsBack(Ran(before), key) && start.Some? && start.value < |before|
                            then InForce(steps[..start.value]) else InForce(before))
      && Sent(steps) == (if start.Some? then Kept(Sent(before), {start.value}) else Sent(before))
      && Unsent(steps) == (if start.Some? && LastPushAt(before) <= start.value && !RollsBack(Ran(before), key)
                           then Unsent(before) + {start.value} else Unsent(before))
  {
    hide Ran, StartOf, LastPushAt, RollsBack, Kept;
  }

  lemma FailKept(steps: seq<RailStep>, key: Key)
    requires steps != [] && steps[|steps| - 1] == Fail(key)
    requires var before := steps[..|steps| - 1];
      Sent(before) == Kept(InForce(before), Unsent(before)) && AllMade(InForce(before), Unsent(before))
    ensures Sent(steps) == Kept(InForce(steps), Unsent(steps)) && AllMade(InForce(steps), Unsent(steps))
  {
    hide InForce, Sent, Unsent, Kept, Ran, StartOf, LastPushAt, RollsBack;
    var before := steps[..|steps| - 1];
    var made, unsent := InForce(before), Unsent(before);
    FailInPlay(steps, key);
    NoStartNoRollback(before, key);
    var start := StartOf(before, key);
    if start.Some? {
      var i := start.value;
      InFlightShows(before, key);
      InForceIsRecent(before);
      KeptTwice(made, unsent, {i});
      if RollsBack(Ran(before), key) {
        RollbackInForce(before, key);
        var earlier := InForce(before[..i]);
        assert before[..i] == steps[..i];
        InForceIsRecent(before[..i]);
        KeptSnoc(earlier, Made(i, before[i].action), unsent + {i});
        KeptIgnores(earlier, unsent, i);
        assert Kept(earlier, unsent + {i}) + [] == Kept(earlier, unsent + {i});
      } else if i < LastPushAt(before) {
        KeptIgnores(made, unsent, i);
      }
    }
  }

  lemma NoStartNoRollback(steps: seq<RailStep>, key: Key)
    ensures RollsBack(Ran(steps), key) ==> StartOf(steps, key).Some?
  {
    PendingIsHistory(steps, key);
    hide Ran, StartOf;
  }

  /** Unsent steps are exactly what disturbs the inbox. */
  lemma {:induction false} UnsentMeaning(steps: seq<RailStep>)
    ensures Unsent(steps) == {} <==> Undisturbed(steps)
  {
    if steps != [] {
      hide StrandedAt, ClosedAt;
      var n := |steps| - 1;
      UnsentMeaning(steps[..n]);
      forall j | j < n { DisturbedBefore(steps, n, j); }
      forall j | j > n { DisturbedNever(steps, j); }
      DisturbedNow(steps, n);
    }
  }

  lemma DisturbedNever(steps: seq<RailStep>, j: int)
    requires j >= |steps|
    ensures !StrandedAt(steps, j) && !ClosedAt(steps, j)
  {
  }

  lemma DisturbedBefore(steps: seq<RailStep>, n: nat, j: int)
    requires n + 1 == |steps| && j < n
    ensures steps[n].Push? ==> !StrandedAt(steps, j) && !ClosedAt(steps, j)
    ensures !steps[n].Push? ==>
      StrandedAt(steps, j) == StrandedAt(steps[..n], j) && ClosedAt(steps, j) == ClosedAt(steps[..n], j)
  {
    hide Ran, RollsBack, StartOf;
    if 0 <= j {
      assert steps[..n][..j] == steps[..j];
      if steps[j].Fail? && StartOf(steps[..j], steps[j].key).Some? { StartIsLocal(steps[..j], steps[j].key); }
    }
  }

  lemma DisturbedNow(steps: seq<RailStep>, n: nat)
    requires n + 1 == |steps|
    ensures Unsent(steps) == (if steps[n].Push? then {} else Unsent(steps[..n])) <==>
      (steps[n].Push? || !(StrandedAt(steps, n) || ClosedAt(steps, n)))
    ensures steps[n].Push? ==> !StrandedAt(steps, n) && !ClosedAt(steps, n)
    ensures StrandedAt(steps, n) || ClosedAt(steps, n) ==> Unsent(steps) != {}
  {
    hide Ran, RollsBack, StartOf;
    PushIsPast(steps[..n]);
    InForceIsRecent(steps[..n]);
    if steps[n].Fail? && StartOf(steps[..n], steps[n].key).Some? { InFlightShows(steps[..n], steps[n].key); }
  }

  /** The inbox shows exactly what the Hub was told since the last push if and only if no
      action failed too late to be rolled back, and no server was closed, since then. */
  lemma InForceIsSent(steps: seq<RailStep>)
    ensures ActionsOf(InForce(steps)) == ActionsOf(Sent(steps)) <==> Undisturbed(steps)
  {
    var made, unsent := InForce(steps), Unsent(steps);
    hide InForce, Sent, Unsent, Undisturbed;
    SentIsKept(steps);
    UnsentMeaning(steps);
    KeptMembers(made, unsent);
    if unsent == {} {
      KeptAll(made, unsent);
    } else {
      var i :| i in unsent;
      var m :| m in made && m.at == i;
      assert |ActionsOf(Kept(made, unsent))| < |ActionsOf(made)|;
    }
  }

  // ------------------------------------------------- ahead of the Hub

  /** A guarded action always has its session at the Hub the inbox shows, so the
      prediction fails only on a conflict it leaves standing. */
  lemma AcceptedPredictsHub(st: RailState, h: Hub, action: Action)
    requires Valid(h) && Shows(st.inbox, h) && Accepts(st, action)
    ensures Shows(ApplyLocal(st.inbox, action), Step(h, OpOf(action)).hub) <==> ConflictsCleared(h.sessions, action)
  {
    hide Valid, Step, ApplyLocal, ConflictsCleared;
    RowIsHeld(st.inbox, h, action.sessionId);
    LocalPredictsHub(st.inbox, h, action);
  }

  lemma RowIsHeld(inbox: Inbox, h: Hub, id: Id)
    requires Shows(inbox, h) && HasRowFor(inbox, id)
    ensures id in h.sessions
  {
  }

  function OpsOf(actions: seq<Action>): seq<Op> {
    seq(|actions|, i requires 0 <= i < |actions| => OpOf(actions[i]))
  }

  lemma OpsOfSnoc(ops: seq<Op>, actions: seq<Action>, action: Action)
    ensures ops + OpsOf(actions + [action]) == ops + OpsOf(actions) + [OpOf(action)]
  {
  }

  lemma {:induction false} ActionsStayDisciplined(ops: seq<Op>, actions: seq<Action>)
    requires Disciplined(ops)
    ensures Disciplined(ops + OpsOf(actions))
  {
    var all := ops + OpsOf(actions);
    forall k | 0 <= k < |all| ensures FlagsPreserved(After(all[..k]).sessions, all[k]) {
      if k < |ops| {
        assert all[..k] == ops[..k];
      } else {
        assert all[k] == OpOf(actions[k - |ops|]);
      }
    }
  }

  /** One more local mutation, one more Hub operation. */
  lemma OneMoreAction(ops: seq<Op>, actions: seq<Action>, inbox: Inbox, action: Action)
    requires Disciplined(ops) && Shows(inbox, After(ops + OpsOf(actions)))
    requires !SolosStranger(After(ops + OpsOf(actions)).sessions, action)
    ensures Shows(ApplyLocal(inbox, action), After(ops + OpsOf(actions + [action])))
  {
    hide *;
    ActionsStayDisciplined(ops, actions);
    RailPredictsHub(ops + OpsOf(actions), inbox, action);
    OpsOfSnoc(ops, actions, action);
  }

  /** Reading every mutation in force as an operation: if the last pushed inbox showed
      the Hub after `ops`, the visible one shows what the Hub would hold after them. */
  lemma {:induction false} RailShowsInForce(steps: seq<RailStep>, ops: seq<Op>)
    requires Disciplined(ops) && Shows(LastPush(steps), After(ops))
    ensures Shows(Ran(steps).inbox, After(ops + OpsOf(ActionsOf(InForce(steps)))))
    decreases |steps|
  {
    hide ApplyLocal, StartOf, Shows, Disciplined, After, Busy, HasRowFor, ActionsOf;
    NoActions();
    assert ops + OpsOf([]) == ops;
    if steps != [] {
      var n := |steps| - 1;
      var before := steps[..n];
      match steps[n]
      case Push(_) =>
      case Start(action) =>
        RailShowsInForce(before, ops);
        if Accepts(Ran(before), action) {
          AcceptedShows(before, ops, action);
          ActionsOfSnoc(InForce(before), Made(n, action));
        }
      case Dismissed(id) =>
        RailShowsInForce(before, ops);
        OneMoreAction(ops, ActionsOf(InForce(before)), Ran(before).inbox, Dismiss(id));
        ActionsOfSnoc(InForce(before), Made(n, Dismiss(id)));
      case Closed(id) =>
        RailShowsInForce(before, ops);
        OneMoreAction(ops, ActionsOf(InForce(before)), Ran(before).inbox, Dismiss(id));
        ActionsOfSnoc(InForce(before), Made(n, Dismiss(id)));
      case Fail(key) =>
        RailShowsInForce(before, ops);
        if RollsBack(Ran(before), key) {
          RollbackGoesBack(before, key);
          var i := StartOf(before, key).value;
          assert before[..i] == steps[..i];
          RailShowsInForce(steps[..i], ops);
        }
      case Succeed(_) => RailShowsInForce(before, ops);
    }
  }

  lemma AcceptedShows(before: seq<RailStep>, ops: seq<Op>, action: Action)
    requires Disciplined(ops) && Shows(Ran(before).inbox, After(ops + OpsOf(ActionsOf(InForce(before)))))
    requires Accepts(Ran(before), action)
    ensures Shows(ApplyLocal(Ran(before).inbox, action), After(ops + OpsOf(ActionsOf(InForce(before)) + [action])))
  {
    hide Disciplined, Shows, After, ApplyLocal, HasRowFor, Busy, Ran, InForce, ActionsOf;
    RowIsHeld(Ran(before).inbox, After(ops + OpsOf(ActionsOf(InForce(before)))), action.sessionId);
    OneMoreAction(ops, ActionsOf(InForce(before)), Ran(before).inbox, action);
  }

  /** So, if no action failed too late to be rolled back and no server was closed since
      the last push: the visible inbox shows the Hub after `ops` and everything it was
      told since, under every interleaving. */
  lemma RailRunsAhead(steps: seq<RailStep>, ops: seq<Op>)
    requires Disciplined(ops) && Shows(LastPush(steps), After(ops)) && Undisturbed(steps)
    ensures Shows(Ran(steps).inbox, After(ops + OpsOf(ActionsOf(Sent(steps)))))
  {
    hide *;
    RailShowsInForce(steps, ops);
    InForceIsSent(steps);
  }

  /** A click on `a`, then one on `b`, and the first one fails. */
  function FirstOfTwoFails(p: Inbox, a: Id, b: Id): seq<RailStep> {
    [Push(p), Start(SetMuted(a, true)), Start(SetMuted(b, true)), Fail(Key(a, MuteKey))]
  }

  lemma RanSnoc(steps: seq<RailStep>, step: RailStep)
    ensures Ran(steps + [step]) == Next(Ran(steps), step)
  {
    assert (steps + [step])[..|steps|] == steps;
  }

  lemma HeldHasRow(inbox: Inbox, h: Hub, id: Id)
    requires Shows(inbox, h) && id in h.sessions
    ensures HasRowFor(inbox, id)
  {
    var i :| 0 <= i < |inbox.tabs| && inbox.tabs[i].Id() == id;
  }

  lemma MuteLands(ops: seq<Op>, id: Id, other: Id)
    requires id in After(ops).sessions && other in After(ops).sessions
    ensures var m, m' := After(ops).sessions, After(ops + [Mute(id)]).sessions;
      id in m' && m'[id].muted && other in m' && (other != id ==> m'[other].muted == m[other].muted)
  {
    assert (ops + [Mute(id)])[..|ops|] == ops;
    hide Notifies;
  }

  lemma ShownAlike(inbox: Inbox, h: Hub, h': Hub, id: Id)
    requires Shows(inbox, h) && Shows(inbox, h') && id in h.sessions
    ensures id in h'.sessions && h'.sessions[id].muted == h.sessions[id].muted
  {
    var i :| 0 <= i < |inbox.tabs| && inbox.tabs[i].Id() == id;
    assert Matches(inbox.tabs[i], h.sessions[id]) && Matches(inbox.tabs[i], h'.sessions[id]);
  }

  /** Both clicks are accepted and sent; what the rail shows in between. */
  lemma FirstTwoClicks(p: Inbox, ops: seq<Op>, a: Id, b: Id)
    requires Disciplined(ops) && Shows(p, After(ops)) && p.connected && a != b
    requires a in After(ops).sessions && b in After(ops).sessions
    ensures var one, two := [Push(p)], [Push(p), Start(SetMuted(a, true))];
      && Accepts(Ran(one), SetMuted(a, true)) && Accepts(Ran(two), SetMuted(b, true))
      && Ran(one) == RailState(p, 1, map[])
      && Ran(two) == RailState(ApplyLocal(p, SetMuted(a, true)), 2, map[Key(a, MuteKey) := Pending(p, 2)])
      && Shows(ApplyLocal(p, SetMuted(a, true)), After(ops + [Mute(a)]))
  {
    hide Shows, HasRowFor, Disciplined, After, SolosStranger;
    var one, two := [Push(p)], [Push(p), Start(SetMuted(a, true))];
    assert one == [] + one && two == one + [Start(SetMuted(a, true))];
    RanSnoc([], Push(p));
    RanSnoc(one, Start(SetMuted(a, true)));
    HeldHasRow(p, After(ops), a);
    MuteIsNoSolo(After(ops).sessions, a);
    RailPredictsHub(ops, p, SetMuted(a, true));
    MuteLands(ops, a, b);
    HeldHasRow(ApplyLocal(p, SetMuted(a, true)), After(ops + [Mute(a)]), b);
  }

  lemma MuteIsNoSolo(m: Sessions, id: Id)
    ensures !SolosStranger(m, SetMuted(id, true))
  {
  }

  /** The first click's action is the one its failure finds. */
  lemma FirstOfTwoStarts(p: Inbox, a: Id, b: Id)
    requires a != b && Accepts(Ran([Push(p)]), SetMuted(a, true))
    ensures var three := FirstOfTwoFails(p, a, b)[..3];
      StartOf(three, Key(a, MuteKey)) == Some(1) && LastPushAt(FirstOfTwoFails(p, a, b)) == 1
  {
    hide Ran, Accepts;
    var steps := FirstOfTwoFails(p, a, b);
    assert steps[..1] == [Push(p)] && steps[..3][..2] == steps[..2] && steps[..2][..1] == steps[..1];
    assert StartOf(steps[..2], Key(a, MuteKey)) == Some(1);
    assert LastPushAt(steps[..1]) == 1 && LastPushAt(steps[..2]) == 1 && LastPushAt(steps[..3]) == 1;
  }

  lemma FirstOfTwoSent(p: Inbox, a: Id, b: Id)
    requires a != b && Accepts(Ran([Push(p)]), SetMuted(a, true))
    requires Accepts(Ran([Push(p), Start(SetMuted(a, true))]), SetMuted(b, true))
    ensures ActionsOf(Sent(FirstOfTwoFails(p, a, b))) == [SetMuted(b, true)]
  {
    hide Ran, Accepts, StartOf, LastPushAt, Kept, Sent, InForce, Unsent, RollsBack;
    FirstOfTwoStarts(p, a, b);
    var steps := FirstOfTwoFails(p, a, b);
    var first, second := Made(1, SetMuted(a, true)), Made(2, SetMuted(b, true));
    assert steps[..1] == [Push(p)] && steps[..2] == [Push(p), Start(SetMuted(a, true))];
    assert steps[..3][..2] == steps[..2] && steps[..2][..1] == steps[..1];
    StepInPlay(steps[..1]);
    StepInPlay(steps[..2]);
    StepInPlay(steps[..3]);
    assert [] + [first] == [first] && Sent(steps[..3]) == [first] + [second];
    FailInPlay(steps, Key(a, MuteKey));
    KeptSnoc([], first, {1});
    KeptSnoc([first], second, {1});
    KeptMembers([], {1});
    assert [] + [second] == [second];
  }

  /** The second click has moved the revision on. */
  lemma FirstOfTwoState(p: Inbox, ops: seq<Op>, a: Id, b: Id)
    requires Disciplined(ops) && Shows(p, After(ops)) && p.connected && a != b
    requires a in After(ops).sessions && b in After(ops).sessions
    ensures var steps := FirstOfTwoFails(p, a, b);
      var shown := ApplyLocal(ApplyLocal(p, SetMuted(a, true)), SetMuted(b, true));
      !RollsBack(Ran(steps[..3]), Key(a, MuteKey)) && Ran(steps[..3]).inbox == shown && Ran(steps).inbox == shown
  {
    hide Shows, Disciplined, After, ApplyLocal, Accepts, Ran;
    FirstTwoClicks(p, ops, a, b);
    var steps := FirstOfTwoFails(p, a, b);
    var two := [Push(p), Start(SetMuted(a, true))];
    assert steps[..3] == two + [Start(SetMuted(b, true))] && steps == steps[..3] + [Fail(Key(a, MuteKey))];
    RanSnoc(two, Start(SetMuted(b, true)));
    RanSnoc(steps[..3], Fail(Key(a, MuteKey)));
  }

  lemma FirstOfTwoRuns(p: Inbox, ops: seq<Op>, a: Id, b: Id)
    requires Disciplined(ops) && Shows(p, After(ops)) && p.connected && a != b
    requires a in After(ops).sessions && b in After(ops).sessions
    ensures var steps := FirstOfTwoFails(p, a, b);
      && StrandedAt(steps, 3)
      && ActionsOf(Sent(steps)) == [SetMuted(b, true)]
      && Ran(steps).inbox == ApplyLocal(ApplyLocal(p, SetMuted(a, true)), SetMuted(b, true))
  {
    hide Shows, Disciplined, After, ApplyLocal, Accepts, Ran, StartOf, LastPushAt, Sent, RollsBack, ActionsOf;
    FirstTwoClicks(p, ops, a, b);
    FirstOfTwoState(p, ops, a, b);
    FirstOfTwoStarts(p, a, b);
    FirstOfTwoSent(p, a, b);
  }

  /** The condition matters: the second click has moved the revision on, so the failed
      first one stays on the rail although the Hub never heard of it. */
  lemma StrandedFailureMisleads(p: Inbox, ops: seq<Op>, a: Id, b: Id)
    requires Disciplined(ops) && Shows(p, After(ops)) && p.connected && a != b
    requires a in After(ops).sessions && b in After(ops).sessions && !After(ops).sessions[a].muted
    ensures var steps := FirstOfTwoFails(p, a, b);
      && StrandedAt(steps, 3)
      && ActionsOf(Sent(steps)) == [SetMuted(b, true)]
      && !Shows(Ran(steps).inbox, After(ops + [Mute(b)]))
  {
    var steps := FirstOfTwoFails(p, a, b);
    FirstOfTwoRuns(p, ops, a, b);
    FirstTwoClicks(p, ops, a, b);
    MuteLands(ops, a, b);
    MuteLands(ops, b, a);
    MuteLands(ops + [Mute(a)], b, a);
    MuteIsNoSolo(After(ops + [Mute(a)]).sessions, b);
    MutedStaysDisciplined(ops, a);
    RailPredictsHub(ops + [Mute(a)], ApplyLocal(p, SetMuted(a, true)), SetMuted(b, true));
    hide *;
    if Shows(Ran(steps).inbox, After(ops + [Mute(b)])) {
      ShownAlike(Ran(steps).inbox, After(ops + [Mute(a)] + [Mute(b)]), After(ops + [Mute(b)]), a);
    }
  }

  lemma MutedStaysDisciplined(ops: seq<Op>, id: Id)
    requires Disciplined(ops)
    ensures Disciplined(ops + [Mute(id)])
  {
    ActionsStayDisciplined(ops, [SetMuted(id, true)]);
    assert OpsOf([SetMuted(id, true)]) == [Mute(id)];
  }

  // ------------------------------------------------- server list refreshes

  datatype Refresh = Refresh(generation: nat, servers: seq<string>)

  datatype RefreshStep =
    | Begin
    | Reply(generation: nat, list: seq<string>)

  const Unrefreshed := Refresh(0, [])

  function NextRefresh(st: Refresh, step: RefreshStep): Refresh {
    match step
    case Begin => st.(generation := st.generation + 1)
    case Reply(generation, list) => if generation != st.generation then st else st.(servers := list)
  }

  function Refreshed(steps: seq<RefreshStep>): Refresh {
    if steps == [] then Unrefreshed else NextRefresh(Refreshed(steps[..|steps| - 1]), steps[|steps| - 1])
  }

  /** The rail's server list and the number of its newest refresh. */
  class ServerList {
    var refreshGeneration: nat
    var servers: seq<string>

    ghost function State(): Refresh reads this { Refresh(refreshGeneration, servers) }

    constructor ()
      ensures State() == Unrefreshed
    {
      refreshGeneration, servers := 0, [];
    }

    method BeginRefresh() returns (generation: nat)
      modifies this
      ensures State() == NextRefresh(old(State()), RefreshStep.Begin)
      ensures generation == refreshGeneration > old(refreshGeneration)
    {
      refreshGeneration := refreshGeneration + 1;
      generation := refreshGeneration;
    }

    method FinishRefresh(generation: nat, list: seq<string>)
      modifies this
      ensures State() == NextRefresh(old(State()), Reply(generation, list))
    {
      if generation != refreshGeneration {
        return;
      }
      servers := list;
    }
  }

  /** How many refreshes have begun; the newest one's number. */
  function Begun(steps: seq<RefreshStep>): nat {
    if steps == [] then 0 else Begun(steps[..|steps| - 1]) + (if steps[|steps| - 1].Begin? then 1 else 0)
  }

  /** The refresh replied while it was still the newest. */
  predicate InTime(steps: seq<RefreshStep>, k: int) {
    0 <= k < |steps| && steps[k].Reply? && steps[k].generation == Begun(steps[..k])
  }

  /** The reply of the greatest refresh that replied in time. */
  ghost predicate NewestInTime(steps: seq<RefreshStep>, k: int) {
    InTime(steps, k) && forall j :: InTime(steps, j) && j != k ==> steps[j].generation < steps[k].generation
  }

  ghost predicate ShowsNewest(steps: seq<RefreshStep>, k: int) {
    NewestInTime(steps, k) && Refreshed(steps).servers == steps[k].list
  }

  /** Each refresh is answered at most once. */
  ghost predicate AnsweredOnce(steps: seq<RefreshStep>) {
    forall i, j :: 0 <= i < j < |steps| && steps[i].Reply? && steps[j].Reply? ==>
        steps[i].generation != steps[j].generation
  }

  lemma {:induction false} BegunGrows(steps: seq<RefreshStep>, j: nat, k: nat)
    requires j <= k <= |steps|
    ensures Begun(steps[..j]) <= Begun(steps[..k])
  {
    if j < k {
      BegunGrows(steps, j, k - 1);
      assert steps[..k][..k - 1] == steps[..k - 1];
    }
  }

  lemma InTimePrefix(steps: seq<RefreshStep>, n: nat, k: int)
    requires n <= |steps|
    ensures InTime(steps[..n], k) <==> k < n && InTime(steps, k)
  {
    if 0 <= k < n { assert steps[..n][..k] == steps[..k]; }
  }

  lemma {:induction false} GenerationIsBegun(steps: seq<RefreshStep>)
    ensures Refreshed(steps).generation == Begun(steps)
  {
    if steps != [] { GenerationIsBegun(steps[..|steps| - 1]); }
  }

  /** An in-time reply is the newest in-time one so far. */
  lemma InTimeIsNewest(steps: seq<RefreshStep>, n: nat)
    requires AnsweredOnce(steps) && n + 1 == |steps| && InTime(steps, n)
    ensures ShowsNewest(steps, n)
  {
    GenerationIsBegun(steps[..n]);
    forall j | InTime(steps, j) && j != n ensures steps[j].generation < steps[n].generation {
      BegunGrows(steps, j, n);
    }
  }

  lemma NewestStays(steps: seq<RefreshStep>, n: nat, k: int)
    requires n + 1 == |steps| && !InTime(steps, n) && ShowsNewest(steps[..n], k)
    ensures ShowsNewest(steps, k)
  {
    GenerationIsBegun(steps[..n]);
    InTimeNow(steps);
    hide Begun;
    forall j { InTimePrefix(steps, n, j); }
  }

  /** Under every interleaving of refreshes and their replies, early, late or never,
      the list shown is the one of the greatest refresh that replied while it was the
      newest, and the first list if none did. */
  lemma {:induction false} ListIsNewestInTime(steps: seq<RefreshStep>)
    requires AnsweredOnce(steps)
    ensures (forall k :: !InTime(steps, k)) ==> Refreshed(steps).servers == Unrefreshed.servers
    ensures (exists k :: InTime(steps, k)) ==> exists k :: ShowsNewest(steps, k)
  {
    hide ShowsNewest, Begun;
    if steps != [] {
      var n := |steps| - 1;
      var before := steps[..n];
      ListIsNewestInTime(before);
      GenerationIsBegun(before);
      InTimeNow(steps);
      forall k { InTimePrefix(steps, n, k); }
      hide InTime;
      if InTime(steps, n) {
        InTimeIsNewest(steps, n);
      } else if k :| ShowsNewest(before, k) {
        NewestStays(steps, n, k);
      }
    }
  }

  lemma InTimeNow(steps: seq<RefreshStep>)
    requires steps != []
    ensures var n := |steps| - 1; InTime(steps, n) <==> steps[n].Reply? && steps[n].generation == Begun(steps[..n])
  {
  }
}
