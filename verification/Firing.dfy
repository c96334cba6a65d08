/** Which notifications an operation fires. The host compares views after every single
    event, so what one operation fires depends on the states its events pass through. */
module Firing {
  import opened Protocol
  import opened MergeSpec
  import opened Attention
  import opened Faces

  /** Going from `a` to `b` makes the session ping afresh, by host-core's rule. */
  predicate Fires(a: Sessions, b: Sessions, id: Id) {
    HostNotifies(b, id) && (!HostNotifies(a, id) || a[id].rollupUrgency != b[id].rollupUrgency)
  }

  /** Some event of the stream does. */
  predicate FiresOn(g: Hub, events: seq<Event>, id: Id)
    decreases |events|
  {
    events != [] &&
    (Fires(g.sessions, GuiApply(g, events[0]).sessions, id) || FiresOn(GuiApply(g, events[0]), events[1..], id))
  }

  /** The Hub wants a notification: the session begins to notify, or its urgency changes. */
  predicate Wanted(before: Sessions, after: Sessions, id: Id) {
    Notifies(after, id) && (!Notifies(before, id) || before[id].rollupUrgency != after[id].rollupUrgency)
  }

  /** A solo moves to `x` from a session listed earlier: between the two updates the face
      sees no solo at all, and a third waiting, unmuted session pings. */
  ghost predicate SoloPasses(h: Hub, op: Op, id: Id) {
    && op.Solo? && id in h.sessions && id != op.sessionId
    && h.sessions[id].rollupState == Waiting && !h.sessions[id].muted && !h.sessions[id].soloed
    && exists i, j :: SoloMoves(h, op, i, j)
  }

  predicate SoloMoves(h: Hub, op: Op, i: int, j: int) {
    && op.Solo? && 0 <= i < j < |h.order| && h.order[j] == op.sessionId && h.order[i] != op.sessionId
    && h.order[i] in h.sessions && h.sessions[h.order[i]].soloed
  }

  /** The last run of a notifying session with an urgency goes: until the session's own
      update the face keeps the waiting state but not the urgency. */
  predicate Empties(h: Hub, op: Op, id: Id) {
    && op.RemoveRun? && op.ownerId == id && Notifies(h.sessions, id)
    && HasRun(h.sessions[id].runs, op.runId) && DropRun(h.sessions[id].runs, op.runId) == []
    && h.sessions[id].rollupUrgency.Some?
  }

  ghost predicate OperationFires(h: Hub, op: Op, id: Id) {
    Wanted(h.sessions, Step(h, op).hub.sessions, id) || SoloPasses(h, op, id) || Empties(h, op, id)
  }

  // ------------------------------------------------------ looking the same

  predicate Alike(s: Session, t: Session) {
    s.muted == t.muted && s.soloed == t.soloed && s.rollupState == t.rollupState && s.rollupUrgency == t.rollupUrgency
  }

  ghost predicate AllAlike(a: Sessions, b: Sessions) {
    a.Keys == b.Keys && forall id :: id in a ==> Alike(a[id], b[id])
  }

  lemma AlikeNotify(a: Sessions, b: Sessions, id: Id)
    requires AllAlike(a, b)
    ensures HostNotifies(a, id) == HostNotifies(b, id)
  {
    SameFlagsSameBit(a, b);
  }

  lemma AlikeFire(a: Sessions, a': Sessions, b: Sessions, b': Sessions, id: Id)
    requires AllAlike(a, a') && AllAlike(b, b')
    ensures Fires(a, b, id) == Fires(a', b', id)
  {
    hide HostNotifies;
    AlikeNotify(a, a', id);
    AlikeNotify(b, b', id);
    NotifyingIsHeld(a, id);
    NotifyingIsHeld(b, id);
  }

  lemma NotifyingIsHeld(m: Sessions, id: Id)
    ensures HostNotifies(m, id) ==> id in m
  {
  }

  lemma NothingFires(a: Sessions, b: Sessions, id: Id)
    requires AllAlike(a, b)
    ensures !Fires(a, b, id)
  {
    hide HostNotifies;
    AlikeNotify(a, b, id);
    NotifyingIsHeld(b, id);
  }

  /** Without a session both muted and soloed, firing is what the Hub wants. */
  lemma FiringIsWanted(a: Sessions, b: Sessions, id: Id)
    requires SoloedUnmuted(a) && SoloedUnmuted(b)
    ensures Fires(a, b, id) == Wanted(a, b, id)
  {
    hide HostNotifies, Notifies;
    NotifyRulesDiffer(a, id);
    NotifyRulesDiffer(b, id);
  }

  // ----------------------------------------------------- sweeping a list

  /** The map with the listed sessions replaced one by one. */
  function Swept(m: Sessions, l: seq<Id>, after: Sessions): Sessions
    requires forall id :: id in l ==> id in after
    decreases |l|
  {
    if l == [] then m else Swept(m[l[0] := after[l[0]]], l[1..], after)
  }

  predicate SweepFires(m: Sessions, l: seq<Id>, after: Sessions, id: Id)
    requires forall k :: k in l ==> k in after
    decreases |l|
  {
    l != [] &&
    (Fires(m, m[l[0] := after[l[0]]], id) || SweepFires(m[l[0] := after[l[0]]], l[1..], after, id))
  }

  lemma {:induction false} SweepSplits(m: Sessions, l1: seq<Id>, l2: seq<Id>, after: Sessions, id: Id)
    requires forall k :: k in l1 || k in l2 ==> k in after
    ensures forall k :: k in l1 + l2 ==> k in after
    ensures SweepFires(m, l1 + l2, after, id) <==>
        SweepFires(m, l1, after, id) || SweepFires(Swept(m, l1, after), l2, after, id)
    decreases |l1|
  {
    hide Fires;
    if l1 == [] {
      assert l1 + l2 == l2;
    } else {
      assert (l1 + l2)[0] == l1[0] && (l1 + l2)[1..] == l1[1..] + l2;
      SweepSplits(m[l1[0] := after[l1[0]]], l1[1..], l2, after, id);
    }
  }

  ghost predicate Quiet(m: Sessions, l: seq<Id>, after: Sessions) {
    forall k :: k in l ==> k in m && k in after && Alike(m[k], after[k])
  }

  /** Replacing sessions by ones that look the same fires nothing. */
  lemma {:induction false} QuietSweep(m: Sessions, l: seq<Id>, after: Sessions, id: Id)
    requires Quiet(m, l, after)
    ensures !SweepFires(m, l, after, id) && AllAlike(Swept(m, l, after), m)
    decreases |l|
  {
    if l != [] {
      hide Fires;
      var m' := m[l[0] := after[l[0]]];
      assert AllAlike(m, m');
      NothingFires(m, m', id);
      QuietSweep(m', l[1..], after, id);
    }
  }

  /** One session of the list changes its looks: it alone decides what fires. */
  lemma OneSwitch(m: Sessions, l1: seq<Id>, z: Id, l2: seq<Id>, after: Sessions, id: Id)
    requires Quiet(m, l1, after) && z in m && z in after && Quiet(m[z := after[z]], l2, after)
    ensures forall k :: k in l1 + ([z] + l2) ==> k in after
    ensures SweepFires(m, l1 + ([z] + l2), after, id) <==> Fires(m, m[z := after[z]], id)
    ensures AllAlike(Swept(m, l1 + ([z] + l2), after), m[z := after[z]])
  {
    hide Fires;
    QuietSweep(m, l1, after, id);
    var m1 := Swept(m, l1, after);
    SweepSplits(m, l1, [z] + l2, after, id);
    SweptSplits(m, l1, [z] + l2, after);
    assert ([z] + l2)[1..] == l2;
    var m2 := m1[z := after[z]];
    assert AllAlike(m, m1);
    QuietSweep(m2, l2, after, id);
    AlikeFire(m1, m, m2, m[z := after[z]], id);
  }

  lemma {:induction false} SweptSplits(m: Sessions, l1: seq<Id>, l2: seq<Id>, after: Sessions)
    requires forall k :: k in l1 || k in l2 ==> k in after
    ensures Swept(m, l1 + l2, after) == Swept(Swept(m, l1, after), l2, after)
    decreases |l1|
  {
    if l1 == [] {
      assert l1 + l2 == l2;
    } else {
      assert (l1 + l2)[0] == l1[0] && (l1 + l2)[1..] == l1[1..] + l2;
      SweptSplits(m[l1[0] := after[l1[0]]], l1[1..], l2, after);
    }
  }

  /** Two sessions change theirs: each decides its own moment. */
  lemma TwoSwitches(m: Sessions, l1: seq<Id>, y: Id, l2: seq<Id>, x: Id, l3: seq<Id>, after: Sessions, id: Id)
    requires y in m && x in m && x != y && y in after && x in after
    requires var m1 := m[y := after[y]]; var m2 := m1[x := after[x]];
      Quiet(m, l1, after) && Quiet(m1, l2, after) && Quiet(m2, l3, after)
    ensures var l := (l1 + ([y] + l2)) + ([x] + l3); var m1 := m[y := after[y]]; var m2 := m1[x := after[x]];
      && (forall k :: k in l ==> k in after)
      && (SweepFires(m, l, after, id) <==> Fires(m, m1, id) || Fires(m1, m2, id))
  {
    hide Fires;
    var m1 := m[y := after[y]];
    var m2 := m1[x := after[x]];
    OneSwitch(m, l1, y, l2, after, id);
    var s1 := Swept(m, l1 + ([y] + l2), after);
    SweepSplits(m, l1 + ([y] + l2), [x] + l3, after, id);
    assert Quiet(s1, [], after);
    OneSwitch(s1, [], x, l3, after, id);
    assert [] + ([x] + l3) == [x] + l3;
    AlikeFire(s1, m1, s1[x := after[x]], m2, id);
  }

  /** The updates of a flag command or a removal are a sweep of the list. */
  lemma {:induction false} UpdatesSweep(g: Hub, l: seq<Id>, before: Sessions, after: Sessions, id: Id)
    requires Distinct(l)
    requires forall k :: k in l ==> k in g.sessions && k in before && k in after
    requires forall k :: k in l ==> g.sessions[k] == before[k] && after[k].sessionId == k
    ensures FiresOn(g, Updates(l, before, after), id) <==> SweepFires(g.sessions, l, after, id)
    decreases |l|
  {
    hide Fires;
    if l != [] {
      var z, rest := l[0], l[1..];
      assert l == [z] + rest;
      assert Distinct(rest) && z !in rest by {
        assert forall k :: 0 <= k < |rest| ==> rest[k] == l[k + 1];
      }
      var g' := GuiStore(g, after[z]);
      if before[z] != after[z] {
        UpdatesSweep(g', rest, before, after, id);
        var u := Updates(l, before, after);
        assert u[0] == SessionUpdated(after[z]) && u[1..] == Updates(rest, before, after);
      } else {
        assert g.sessions[z := after[z]] == g.sessions;
        AlikeToItself(g.sessions);
        NothingFires(g.sessions, g.sessions, id);
        UpdatesSweep(g, rest, before, after, id);
      }
    }
  }

  // ------------------------------------------------------ operation by operation

  lemma EditedLooks(m: Sessions, op: Op, k: Id)
    requires k in m
    ensures var e := Edited(m, op);
      && k in e && e[k].sessionId == m[k].sessionId
      && e[k].rollupState == m[k].rollupState && e[k].rollupUrgency == m[k].rollupUrgency
  {
  }

  lemma ReconciledAt(before: Sessions, edited: Sessions, k: Id)
    requires k in edited
    ensures var r := Reconciled(before, edited);
      k in r && r[k].sessionId == edited[k].sessionId && Alike(r[k], edited[k])
  {
    hide Notifies;
  }

  /** After a flag command: who looks different. */
  lemma FlagLooks(h: Hub, op: Op, k: Id)
    requires IsFlagOp(op) && k in h.sessions && h.sessions[k].sessionId == k
    ensures var after := Step(h, op).hub.sessions;
      && k in after && k in Edited(h.sessions, op) && after[k].sessionId == k
      && after[k].rollupState == h.sessions[k].rollupState && after[k].rollupUrgency == h.sessions[k].rollupUrgency
      && after[k].muted == Edited(h.sessions, op)[k].muted && after[k].soloed == Edited(h.sessions, op)[k].soloed
  {
    hide Edited, Reconciled, Updates;
    EditedLooks(h.sessions, op, k);
    ReconciledAt(h.sessions, Edited(h.sessions, op), k);
  }

  lemma FlagSweep(h: Hub, op: Op, id: Id)
    requires IsFlagOp(op) && Policy(h) && FlagsPreserved(h.sessions, op)
    ensures var after := Step(h, op).hub.sessions;
      && after.Keys == h.sessions.Keys
      && (forall k :: k in h.order ==> k in after)
      && (FiresOn(h, Step(h, op).events, id) <==> SweepFires(h.sessions, h.order, after, id))
  {
    hide Rolled, Reconciled, Edited, Updates, FiresOn, SweepFires;
    StepKeepsValid(h, op);
    FlagKeys(h, op);
    UpdatesSweep(h, h.order, h.sessions, Step(h, op).hub.sessions, id);
  }

  lemma FlagKeys(h: Hub, op: Op)
    requires IsFlagOp(op)
    ensures Step(h, op).hub.sessions.Keys == h.sessions.Keys && Step(h, op).hub.order == h.order
    ensures Step(h, op).events == Updates(h.order, h.sessions, Step(h, op).hub.sessions)
  {
    hide Notifies, Updates;
    EditedUnread(h.sessions, op);
  }

  lemma OrderAround(order: seq<Id>, t: nat)
    requires Distinct(order) && t < |order|
    ensures order == order[..t] + ([order[t]] + order[t + 1..])
    ensures order[t] !in order[..t] && order[t] !in order[t + 1..]
    ensures forall k :: k in order[..t] || k in order[t + 1..] ==> k in order
  {
  }

  /** Sessions other than `y` and `x` keep their flags. */
  ghost predicate OnlySwitch(h: Hub, op: Op, y: Id, x: Id) {
    forall k :: k in h.sessions && k != y && k != x ==>
      && k in Edited(h.sessions, op)
      && Edited(h.sessions, op)[k].muted == h.sessions[k].muted
      && Edited(h.sessions, op)[k].soloed == h.sessions[k].soloed
  }

  lemma Unswitched(h: Hub, op: Op, y: Id, x: Id, l: seq<Id>)
    requires IsFlagOp(op) && Policy(h) && OnlySwitch(h, op, y, x)
    requires forall k :: k in l ==> k in h.order && k != y && k != x
    ensures Quiet(h.sessions, l, Step(h, op).hub.sessions)
  {
    hide Step, Edited, Rolled, Notifies;
    forall k | k in l
      ensures k in h.sessions && k in Step(h, op).hub.sessions
      ensures Alike(h.sessions[k], Step(h, op).hub.sessions[k]) {
      FlagLooks(h, op, k);
    }
  }

  lemma QuietBut(m: Sessions, l: seq<Id>, after: Sessions, z: Id, s: Session)
    requires Quiet(m, l, after) && z !in l
    ensures Quiet(m[z := s], l, after)
  {
  }

  lemma LooksBut(m: Sessions, after: Sessions, y: Id)
    requires m.Keys == after.Keys && y in m && forall k :: k in m && k != y ==> Alike(m[k], after[k])
    ensures AllAlike(m[y := after[y]], after)
  {
  }

  /** The others look as before: with the switched ones replaced the map looks final. */
  lemma OthersLook(h: Hub, op: Op, y: Id, x: Id)
    requires IsFlagOp(op) && Policy(h) && OnlySwitch(h, op, y, x) && y in h.sessions && x in h.sessions
    ensures var m, after := h.sessions, Step(h, op).hub.sessions;
      && m.Keys == after.Keys
      && (forall k :: k in m && k != y && k != x ==> Alike(m[k], after[k]))
      && AllAlike(m[y := after[y]][x := after[x]], after)
  {
    hide Step, Edited, Rolled, Notifies, AllAlike;
    FlagKeys(h, op);
    var m, after := h.sessions, Step(h, op).hub.sessions;
    forall k | k in m && k != y && k != x ensures Alike(m[k], after[k]) {
      FlagLooks(h, op, k);
    }
    AlikePutOwn(m, after, y, x);
  }

  lemma AlikePutOwn(m: Sessions, after: Sessions, y: Id, x: Id)
    requires m.Keys == after.Keys && y in m && x in m
    requires forall k :: k in m && k != y && k != x ==> Alike(m[k], after[k])
    ensures AllAlike(m[y := after[y]][x := after[x]], after)
  {
    LooksBut(m[y := after[y]], after, x);
  }

  lemma OneSwitchFires(h: Hub, op: Op, t: nat, id: Id)
    requires IsFlagOp(op) && Policy(h) && t < |h.order| && OnlySwitch(h, op, h.order[t], h.order[t])
    ensures FiresOn(h, Step(h, op).events, id) <==> Fires(h.sessions, Step(h, op).hub.sessions, id)
  {
    hide Step, Edited, Rolled, Fires, FiresOn, SweepFires, OnlySwitch, Alike, AllAlike, Quiet, Swept;
    var m, after, z := h.sessions, Step(h, op).hub.sessions, h.order[t];
    assert z in h.order;
    FlagSweep(h, op, id);
    OthersLook(h, op, z, z);
    LooksBut(m, after, z);
    OrderAround(h.order, t);
    Unswitched(h, op, z, z, h.order[..t]);
    Unswitched(h, op, z, z, h.order[t + 1..]);
    QuietBut(m, h.order[t + 1..], after, z, after[z]);
    OneSwitch(m, h.order[..t], z, h.order[t + 1..], after, id);
    AlikeToItself(m);
    AlikeFire(m, m, m[z := after[z]], after, id);
  }

  lemma TwoSwitchesFire(h: Hub, op: Op, i: nat, j: nat, id: Id)
    requires IsFlagOp(op) && Policy(h) && i < j < |h.order| && OnlySwitch(h, op, h.order[i], h.order[j])
    ensures h.order[i] in Step(h, op).hub.sessions
    ensures var m, after := h.sessions, Step(h, op).hub.sessions; var m1 := m[h.order[i] := after[h.order[i]]];
      FiresOn(h, Step(h, op).events, id) <==> Fires(m, m1, id) || Fires(m1, after, id)
  {
    hide Step, Edited, Rolled, Fires, FiresOn, SweepFires, OnlySwitch;
    var m, after := h.sessions, Step(h, op).hub.sessions;
    var y, x := h.order[i], h.order[j];
    assert y in h.order && x in h.order;
    FlagSweep(h, op, id);
    OthersLook(h, op, y, x);
    OrderAroundTwo(h.order, i, j);
    Unswitched(h, op, y, x, h.order[..i]);
    Unswitched(h, op, y, x, h.order[i + 1..j]);
    Unswitched(h, op, y, x, h.order[j + 1..]);
    QuietBut(m, h.order[i + 1..j], after, y, after[y]);
    QuietBut(m, h.order[j + 1..], after, y, after[y]);
    QuietBut(m[y := after[y]], h.order[j + 1..], after, x, after[x]);
    TwoSwitches(m, h.order[..i], y, h.order[i + 1..j], x, h.order[j + 1..], after, id);
    AlikeToItself(m[y := after[y]]);
    AlikeFire(m[y := after[y]], m[y := after[y]], m[y := after[y]][x := after[x]], after, id);
  }

  lemma OrderAroundTwo(order: seq<Id>, i: nat, j: nat)
    requires Distinct(order) && i < j < |order|
    ensures order == (order[..i] + ([order[i]] + order[i + 1..j])) + ([order[j]] + order[j + 1..])
    ensures forall k :: k in order[..i] || k in order[i + 1..j] || k in order[j + 1..] ==>
      k in order && k != order[i] && k != order[j]
  {
  }

  /** Mute and unmute change the looks of one session at most. */
  lemma MuteFires(h: Hub, op: Op, id: Id)
    requires (op.Mute? || op.Unmute?) && Policy(h)
    ensures FiresOn(h, Step(h, op).events, id) <==> Fires(h.sessions, Step(h, op).hub.sessions, id)
  {
    if op.sessionId in h.sessions {
      var t: nat :| t < |h.order| && h.order[t] == op.sessionId;
      assert OnlySwitch(h, op, op.sessionId, op.sessionId);
      OneSwitchFires(h, op, t, id);
    } else {
      FlagStepSettled(h, op);
      NothingFiresHere(h.sessions, id);
    }
  }

  lemma NothingFiresHere(m: Sessions, id: Id)
    ensures !Fires(m, m, id)
  {
  }

  // ------------------------------------------------------------ solo moves

  ghost predicate SoloIs(m: Sessions, y: Id) {
    y in m && m[y].soloed && forall k :: k in m && m[k].soloed ==> k == y
  }

  /** How a solo changes looks. */
  lemma SoloLooks(h: Hub, op: Op)
    requires op.Solo? && Policy(h) && op.sessionId in h.sessions
    ensures var m, after := h.sessions, Step(h, op).hub.sessions;
      && after.Keys == m.Keys
      && forall k :: k in m ==>
           && after[k].rollupState == m[k].rollupState && after[k].rollupUrgency == m[k].rollupUrgency
           && after[k].soloed == (k == op.sessionId)
           && after[k].muted == (m[k].muted && k != op.sessionId)
  {
    hide Step, Rolled, Notifies;
    FlagKeys(h, op);
    forall k | k in h.sessions { FlagLooks(h, op, k); }
  }

  /** The old solo goes first: for a moment nobody is soloed. */
  lemma SoloGoesFirst(m: Sessions, after: Sessions, y: Id, x: Id, id: Id)
    requires SoloIs(m, y) && SoloedUnmuted(m) && x in m && x != y && after.Keys == m.Keys
    requires forall k :: k in m ==>
      && after[k].rollupState == m[k].rollupState && after[k].rollupUrgency == m[k].rollupUrgency
      && after[k].soloed == (k == x) && after[k].muted == (m[k].muted && k != x)
    ensures var m1 := m[y := after[y]];
      (Fires(m, m1, id) || Fires(m1, after, id)) <==>
      || Fires(m, after, id)
      || (id in m && id != x && id != y && m[id].rollupState == Waiting && !m[id].muted)
  {
    var m1 := m[y := after[y]];
    assert AnySoloed(m) && AnySoloed(after) by { assert after[x].soloed; }
    assert !AnySoloed(m1);
  }

  /** The new solo comes first: for a moment two are soloed. */
  lemma SoloComesFirst(m: Sessions, after: Sessions, y: Id, x: Id, id: Id)
    requires SoloIs(m, y) && x in m && x != y && after.Keys == m.Keys
    requires forall k :: k in m ==>
      && after[k].rollupState == m[k].rollupState && after[k].rollupUrgency == m[k].rollupUrgency
      && after[k].soloed == (k == x) && after[k].muted == (m[k].muted && k != x)
    ensures var m1 := m[x := after[x]];
      (Fires(m, m1, id) || Fires(m1, after, id)) <==> Fires(m, after, id)
  {
    var m1 := m[x := after[x]];
    assert m1[x].soloed && after[x].soloed;
    assert AnySoloed(m) && AnySoloed(m1) && AnySoloed(after);
  }

  lemma SoloFires(h: Hub, op: Op, id: Id)
    requires op.Solo? && Policy(h)
    ensures FiresOn(h, Step(h, op).events, id) <==>
      Fires(h.sessions, Step(h, op).hub.sessions, id) || SoloPasses(h, op, id)
  {
    var m, x := h.sessions, op.sessionId;
    if x !in m {
      FlagStepSettled(h, op);
      NothingFiresHere(m, id);
      NoStrangerMoves(h, op);
    } else if y :| y in m && y != x && m[y].soloed {
      SoloMovesFire(h, op, y, id);
    } else {
      var t: nat :| t < |h.order| && h.order[t] == x;
      assert OnlySwitch(h, op, x, x);
      OneSwitchFires(h, op, t, id);
    }
  }

  lemma NoStrangerMoves(h: Hub, op: Op)
    requires Policy(h) && op.Solo? && op.sessionId !in h.sessions
    ensures forall i, j :: !SoloMoves(h, op, i, j)
  {
    forall i, j ensures !SoloMoves(h, op, i, j) {
      if 0 <= j < |h.order| { var k := h.order[j]; assert k in h.order; }
    }
  }

  lemma OthersKeepFlags(h: Hub, op: Op, y: Id)
    requires op.Solo? && Policy(h) && op.sessionId in h.sessions && y in h.sessions && h.sessions[y].soloed
    ensures SoloIs(h.sessions, y) && OnlySwitch(h, op, y, op.sessionId) && OnlySwitch(h, op, op.sessionId, y)
  {
  }

  lemma SoloMovesFire(h: Hub, op: Op, y: Id, id: Id)
    requires op.Solo? && Policy(h) && op.sessionId in h.sessions
    requires y in h.sessions && y != op.sessionId && h.sessions[y].soloed
    ensures FiresOn(h, Step(h, op).events, id) <==>
      Fires(h.sessions, Step(h, op).hub.sessions, id) || SoloPasses(h, op, id)
  {
    hide Step, Edited, Fires, FiresOn, OnlySwitch, SoloMoves, Rolled;
    var m, after, x := h.sessions, Step(h, op).hub.sessions, op.sessionId;
    var i: nat :| i < |h.order| && h.order[i] == y;
    var j: nat :| j < |h.order| && h.order[j] == x;
    SoloLooks(h, op);
    OthersKeepFlags(h, op, y);
    MovesExactly(h, op, i, j);
    if i < j {
      TwoSwitchesFire(h, op, i, j, id);
      SoloGoesFirst(m, after, y, x, id);
    } else {
      TwoSwitchesFire(h, op, j, i, id);
      SoloComesFirst(m, after, y, x, id);
    }
  }

  lemma MovesExactly(h: Hub, op: Op, i: nat, j: nat)
    requires op.Solo? && Policy(h) && i < |h.order| && j < |h.order| && h.order[j] == op.sessionId
    requires h.order[i] != op.sessionId && h.order[i] in h.sessions && h.sessions[h.order[i]].soloed
    ensures (exists p, q :: SoloMoves(h, op, p, q)) <==> i < j
  {
    if i < j { assert SoloMoves(h, op, i, j); }
    if p, q :| SoloMoves(h, op, p, q) {
      assert h.order[p] == h.order[i] && h.order[q] == h.order[j];
    }
  }

  // -------------------------------------------------- the other operations

  lemma RemovalFires(h: Hub, id: Id, gone: Id)
    requires Policy(h) && gone in h.sessions
    ensures var out := Step(h, RemoveSession(gone));
      FiresOn(h, out.events, id) <==> Fires(h.sessions, out.hub.sessions, id)
  {
    var m, out := h.sessions, Step(h, RemoveSession(gone));
    var left := m - {gone};
    StepKeepsValid(h, RemoveSession(gone));
    WithoutMeaning(h.order, gone);
    ReconciledLooks(m, left);
    hide Rolled, Reconciled, Fires, SweepFires, Without, Updates;
    var g := Hub(left, out.hub.order);
    assert GuiApply(h, out.events[0]) == g;
    assert out.events[1..] == Updates(out.hub.order, m, out.hub.sessions);
    UpdatesSweep(g, out.hub.order, m, out.hub.sessions, id);
    QuietSweep(left, out.hub.order, out.hub.sessions, id);
    AlikeToItself(m);
    AlikeFire(m, m, left, out.hub.sessions, id);
  }

  lemma ReconciledLooks(before: Sessions, edited: Sessions)
    ensures AllAlike(edited, Reconciled(before, edited))
  {
    hide Notifies;
  }

  lemma AlikeToItself(a: Sessions)
    ensures AllAlike(a, a)
  {
  }

  lemma OneEventFires(h: Hub, e: Event, id: Id)
    ensures FiresOn(h, [e], id) <==> Fires(h.sessions, GuiApply(h, e).sessions, id)
  {
    hide Fires, GuiApply;
  }

  lemma TwoEventsFire(h: Hub, e: Event, f: Event, id: Id)
    ensures FiresOn(h, [e, f], id) <==>
      Fires(h.sessions, GuiApply(h, e).sessions, id)
      || Fires(GuiApply(h, e).sessions, GuiApply(GuiApply(h, e), f).sessions, id)
  {
    hide Fires, GuiApply;
    assert [e, f][1..] == [f];
    OneEventFires(GuiApply(h, e), f, id);
  }

  /** Both rollups, as the Hub stores them and as the GUI shows them meanwhile. */
  lemma RollupsAlike(m: Sessions, t: Session)
    ensures var settled := Settle(m, Rolled(t));
      && settled.sessionId == t.sessionId && settled.runs == t.runs
      && settled.muted == t.muted && settled.soloed == t.soloed
      && (t.runs != [] ==> Alike(GuiRolled(t), settled))
      && (t.runs == [] ==>
            settled.rollupState == Idle && settled.rollupUrgency == None && GuiRolled(t) == t.(rollupUrgency := None))
  {
    hide Notifies, ShouldNotify, AnySoloed;
    RollupStateIsMostUrgent(t.runs);
  }

  /** What the two events of a run operation leave: first the GUI's own rollup, then the
      settled session. */
  lemma RunEvents(h: Hub, op: Op)
    requires Policy(h) && (op.UpsertRun? || op.RemoveRun?) && Step(h, op).events != []
    ensures op.ownerId in h.sessions
    ensures var x, events := op.ownerId, Step(h, op).events;
      var t := h.sessions[x].(runs := NewRuns(h.sessions[x].runs, op));
      && |events| == 2
      && GuiApply(h, events[0]) == Hub(h.sessions[x := GuiRolled(t)], h.order)
      && events[1] == SessionUpdated(Settle(h.sessions, Rolled(t)))
      && Step(h, op).hub == Hub(h.sessions[x := Settle(h.sessions, Rolled(t))], h.order)
  {
    hide GuiRolled, Rolled, Settle, PutRun, DropRun, HasRun;
  }

  function NewRuns(runs: seq<AgentRun>, op: Op): seq<AgentRun>
    requires op.UpsertRun? || op.RemoveRun?
  {
    if op.UpsertRun? then PutRun(runs, op.run) else DropRun(runs, op.runId)
  }

  lemma RunFires(h: Hub, op: Op, id: Id)
    requires Policy(h) && (op.UpsertRun? || op.RemoveRun?) && Step(h, op).events != []
    ensures FiresOn(h, Step(h, op).events, id) <==>
      Fires(h.sessions, Step(h, op).hub.sessions, id) || Empties(h, op, id)
  {
    var x, events := op.ownerId, Step(h, op).events;
    RunEvents(h, op);
    var t := h.sessions[x].(runs := NewRuns(h.sessions[x].runs, op));
    var settled := Settle(h.sessions, Rolled(t));
    RollupsAlike(h.sessions, t);
    assert t.sessionId == x && settled.sessionId == x;
    var g := Hub(h.sessions[x := GuiRolled(t)], h.order);
    assert GuiApply(g, events[1]) == Hub(h.sessions[x := settled], h.order) by {
      assert h.sessions[x := GuiRolled(t)][x := settled] == h.sessions[x := settled];
    }
    assert events == [events[0], events[1]];
    TwoEventsFire(h, events[0], events[1], id);
    EmptiesMeans(h, op, id);
    hide Step, FiresOn, Fires, Rolled, Settle, GuiRolled, Empties, NewRuns;
    RunFiresAt(h.sessions, x, t, settled, GuiRolled(t), id);
  }

  lemma EmptiesMeans(h: Hub, op: Op, id: Id)
    requires Policy(h) && (op.UpsertRun? || op.RemoveRun?) && Step(h, op).events != [] && op.ownerId in h.sessions
    ensures Empties(h, op, id) <==>
      && id == op.ownerId && NewRuns(h.sessions[id].runs, op) == [] && HostNotifies(h.sessions, id)
      && h.sessions[id].rollupUrgency.Some?
  {
    NotifyRulesDiffer(h.sessions, id);
    if op.UpsertRun? { assert PutRun(h.sessions[op.ownerId].runs, op.run) != []; }
  }

  /** The two moments of a run operation, on the maps alone. */
  lemma RunFiresAt(m: Sessions, x: Id, t: Session, settled: Session, shown: Session, id: Id)
    requires x in m && t == m[x].(runs := t.runs)
    requires t.runs != [] ==> Alike(shown, settled)
    requires t.runs == [] ==>
      && shown == t.(rollupUrgency := None) && settled.rollupState == Idle && settled.rollupUrgency == None
      && settled.muted == t.muted && settled.soloed == t.soloed
    ensures var m1, m2 := m[x := shown], m[x := settled];
      (Fires(m, m1, id) || Fires(m1, m2, id)) <==>
      Fires(m, m2, id) || (id == x && t.runs == [] && HostNotifies(m, id) && m[id].rollupUrgency.Some?)
  {
    var m1, m2 := m[x := shown], m[x := settled];
    if t.runs != [] {
      assert AllAlike(m1, m2);
      NothingFires(m1, m2, id);
      AlikeToItself(m);
      AlikeFire(m, m, m1, m2, id);
    } else {
      SoloBitKept(m, x, shown);
      SoloBitKept(m, x, settled);
    }
  }

  lemma SoloBitKept(m: Sessions, x: Id, s: Session)
    requires x in m && s.soloed == m[x].soloed
    ensures AnySoloed(m[x := s]) == AnySoloed(m)
  {
    SameSoloSameBit(m, x, s);
  }

  /** What one operation fires on a face in sync with the Hub: exactly what the Hub wants,
      what pings between the two updates of a moving solo, and a session losing its last
      run. */
  lemma FiresExactly(h: Hub, op: Op, id: Id)
    requires Policy(h) && FlagsPreserved(h.sessions, op)
    ensures FiresOn(h, Step(h, op).events, id) <==> OperationFires(h, op, id)
  {
    hide Rolled, Settle, Reconciled, Edited, Updates, Fires, Wanted, FlagsPreserved, UnreadNotifies, OneSolo;
    var out := Step(h, op);
    StepKeepsPolicy(h, op);
    FiringIsWanted(h.sessions, out.hub.sessions, id);
    FacesFollowStep(h, op);
    if op.Mute? || op.Unmute? {
      MuteFires(h, op, id);
    } else if op.Solo? {
      SoloFires(h, op, id);
    } else if out.events == [] {
      NothingFiresHere(h.sessions, id);
    } else if op.RemoveSession? {
      RemovalFires(h, id, op.sessionId);
    } else if op.UpsertRun? || op.RemoveRun? {
      RunFires(h, op, id);
    } else {
      assert out.events == [out.events[0]];
      OneEventFires(h, out.events[0], id);
      GuiApplyOne(h, out.events[0]);
    }
  }

  // ------------------------------------------------------------ whole runs

  lemma {:induction false} FiresOnConcat(g: Hub, a: seq<Event>, b: seq<Event>, id: Id)
    ensures FiresOn(g, a + b, id) <==> FiresOn(g, a, id) || FiresOn(GuiApplyAll(g, a), b, id)
    decreases |a|
  {
    hide Fires, GuiApply;
    if a == [] {
      assert a + b == b;
    } else {
      assert (a + b)[0] == a[0] && (a + b)[1..] == a[1..] + b;
      FiresOnConcat(GuiApply(g, a[0]), a[1..], b, id);
    }
  }

  /** The k-th operation of a run fires the session. */
  ghost predicate FiredBy(h: Hub, ops: seq<Op>, k: int, id: Id) {
    0 <= k < |ops| && OperationFires(AfterFrom(h, ops[..k]), ops[k], id)
  }

  /** The run keeps the policy all along. */
  ghost predicate Orderly(h: Hub, ops: seq<Op>) {
    forall k :: 0 <= k < |ops| ==>
      Policy(AfterFrom(h, ops[..k])) && FlagsPreserved(AfterFrom(h, ops[..k]).sessions, ops[k])
  }

  /** What a run fires is what its operations fire. */
  lemma {:induction false} RunFiresExactly(h: Hub, ops: seq<Op>, id: Id)
    requires Valid(h) && Orderly(h, ops)
    ensures FiresOn(h, Broadcasts(h, ops), id) <==> exists k :: FiredBy(h, ops, k, id)
  {
    hide Step, OperationFires, Valid, Policy, FlagsPreserved;
    if ops == [] {
      assert Broadcasts(h, ops) == [];
    } else {
      var n := |ops| - 1;
      var init, mid := ops[..n], AfterFrom(h, ops[..n]);
      forall k | 0 <= k < n ensures init[..k] == ops[..k] && init[k] == ops[k] {
      }
      RunFiresExactly(h, init, id);
      FacesFollowRun(h, init);
      FiresOnConcat(h, Broadcasts(h, init), Step(mid, ops[n]).events, id);
      FiresExactly(mid, ops[n], id);
      hide Broadcasts, FiresOn;
      FiredByLast(h, ops, id);
      BroadcastsLast(h, ops);
    }
  }

  lemma BroadcastsLast(h: Hub, ops: seq<Op>)
    requires ops != []
    ensures var n := |ops| - 1;
      Broadcasts(h, ops) == Broadcasts(h, ops[..n]) + Step(AfterFrom(h, ops[..n]), ops[n]).events
  {
    hide Step, AfterFrom;
  }

  lemma FiredByLast(h: Hub, ops: seq<Op>, id: Id)
    requires ops != []
    ensures var n := |ops| - 1;
      (exists k :: FiredBy(h, ops, k, id)) <==>
      (exists k :: FiredBy(h, ops[..n], k, id)) || OperationFires(AfterFrom(h, ops[..n]), ops[n], id)
  {
    hide AfterFrom, OperationFires;
    var n := |ops| - 1;
    var init := ops[..n];
    if k :| FiredBy(h, init, k, id) {
      assert init[..k] == ops[..k];
      assert FiredBy(h, ops, k, id);
    }
    if k :| FiredBy(h, ops, k, id) {
      if k < n {
        assert init[..k] == ops[..k];
        assert FiredBy(h, init, k, id);
      }
    }
    if OperationFires(AfterFrom(h, init), ops[n], id) { assert FiredBy(h, ops, n, id); }
  }
}
