/** The push-driven server registry: generation-tagged connections, delayed drops,
    explicit closes, liveness reaping and pinned renames. */
module Bridge {
  import opened Protocol
  import opened Ordering

  /** What is known of one connected server; `conns` are the live generations. */
  datatype Entry = Entry(url: string, name: string, renamed: bool, lastSeen: nat, conns: set<nat>)

  type Entries = map<Id, Entry>

  datatype Registry = Registry(entries: Entries, nextGeneration: nat)

  const NoServers := Registry(map[], 0)

  datatype BridgeStep =
    | Register(id: Id, url: string, name: string, now: nat)
    | Unregister(id: Id, generation: nat)
    | Forget(id: Id)
    | Touch(id: Id, now: nat)
    | Reap(now: nat, timeout: nat)
    | Rename(id: Id, name: string)

  function Elapsed(since: nat, now: nat): nat { if now > since then now - since else 0 }

  function Registered(e: Entry, url: string, name: string, now: nat, generation: nat): Entry {
    Entry(url, if e.renamed then e.name else name, e.renamed, now, e.conns + {generation})
  }

  function BridgeNext(r: Registry, step: BridgeStep): Registry {
    var m := r.entries;
    match step
    case Register(id, url, name, now) =>
      var g := r.nextGeneration;
      var e := if id in m then Registered(m[id], url, name, now, g) else Entry(url, name, false, now, {g});
      Registry(m[id := e], g + 1)
    case Unregister(id, g) =>
      if id !in m || g !in m[id].conns then r
      else if m[id].conns == {g} then r.(entries := m - {id})
      else r.(entries := m[id := m[id].(conns := m[id].conns - {g})])
    case Forget(id) => r.(entries := m - {id})
    case Touch(id, now) => if id in m then r.(entries := m[id := m[id].(lastSeen := now)]) else r
    case Reap(now, timeout) => r.(entries := map id | id in m && Elapsed(m[id].lastSeen, now) <= timeout :: m[id])
    case Rename(id, name) => if id in m then r.(entries := m[id := m[id].(name := name, renamed := true)]) else r
  }

  function BridgeAfter(trace: seq<BridgeStep>): Registry {
    if trace == [] then NoServers else BridgeNext(BridgeAfter(trace[..|trace| - 1]), trace[|trace| - 1])
  }

  // ------------------------------------------------------------- listing

  datatype ServerRow = ServerRow(id: Id, url: string, name: string, renamed: bool)

  function RowFor(id: Id, e: Entry): ServerRow { ServerRow(id, e.url, e.name, e.renamed) }

  predicate RowLess(a: ServerRow, b: ServerRow) { TextLess(a.id.text, b.id.text) }

  /** What the rail can see of the registry. */
  function Visible(m: Entries): map<Id, ServerRow> { map id | id in m :: RowFor(id, m[id]) }

  ghost predicate IsListing(rows: seq<ServerRow>, m: Entries) {
    && Ascending(rows, RowLess)
    && (forall r :: r in rows <==> r.id in m && r == RowFor(r.id, m[r.id]))
  }

  lemma RowLessIsStrict()
    ensures StrictOrder(RowLess)
  {
    forall x: ServerRow ensures !RowLess(x, x) {
      TextLessIrreflexive(x.id.text);
    }
    forall x: ServerRow, y: ServerRow, z: ServerRow | RowLess(x, y) && RowLess(y, z) ensures RowLess(x, z) {
      TextLessTransitive(x.id.text, y.id.text, z.id.text);
    }
  }

  /** The list is a function of what is visible, and tells it apart. */
  lemma ListingsReflectVisible(a: seq<ServerRow>, m: Entries, b: seq<ServerRow>, n: Entries)
    requires IsListing(a, m) && IsListing(b, n)
    ensures a == b <==> Visible(m) == Visible(n)
  {
    if Visible(m) == Visible(n) {
      forall r ensures r in a <==> r in b {
        assert r.id in m <==> r.id in Visible(m);
        assert r.id in n <==> r.id in Visible(n);
        if r.id in m && r.id in n {
          assert Visible(m)[r.id] == RowFor(r.id, m[r.id]) && Visible(n)[r.id] == RowFor(r.id, n[r.id]);
        }
      }
      RowLessIsStrict();
      AscendingIsUnique(a, b, RowLess);
    }
    if a == b {
      forall id ensures id in Visible(m) <==> id in Visible(n) {
        if id in m { assert RowFor(id, m[id]) in b; }
        if id in n { assert RowFor(id, n[id]) in a; }
      }
      forall id | id in Visible(m) ensures Visible(m)[id] == Visible(n)[id] {
        assert RowFor(id, m[id]) in b;
      }
    }
  }

  /** What each operation reports as "the list changed". */
  predicate Signals(r: Registry, step: BridgeStep) {
    var m := r.entries;
    match step
    case Register(id, url, name, _) =>
      id !in m || m[id].url != url || (!m[id].renamed && m[id].name != name)
    case Unregister(id, g) => id in m && m[id].conns == {g}
    case Forget(id) => id in m
    case Reap(now, timeout) => exists id | id in m :: Elapsed(m[id].lastSeen, now) > timeout
    case _ => false
  }

  /** Every change signal is exact: it is raised if and only if the listing changes.
      (A rename answers whether the server exists, not whether the list changed.) */
  lemma SignalsAreExact(r: Registry, step: BridgeStep)
    requires !step.Rename?
    ensures Signals(r, step) <==> Visible(BridgeNext(r, step).entries) != Visible(r.entries)
  {
    var m, m' := r.entries, BridgeNext(r, step).entries;
    match step
    case Register(id, url, name, now) =>
      assert Visible(m') == Visible(m)[id := RowFor(id, m'[id])];
      if id in m { assert Visible(m)[id] == RowFor(id, m[id]); } else { assert id in Visible(m'); }
      if !Signals(r, step) { assert Visible(m') == Visible(m); }
      else if id in m { assert Visible(m')[id] != Visible(m)[id]; }
    case Unregister(id, g) =>
      if Signals(r, step) { assert id in Visible(m) && id !in Visible(m'); } else { assert Visible(m') == Visible(m); }
    case Forget(id) =>
      if Signals(r, step) { assert id in Visible(m) && id !in Visible(m'); } else { assert m' == m; }
    case Reap(now, timeout) =>
      if id :| id in m && Elapsed(m[id].lastSeen, now) > timeout {
        assert id in Visible(m) && id !in Visible(m');
      } else {
        assert m' == m;
      }
    case Touch(id, now) => assert Visible(m') == Visible(m);
  }

  // ------------------------------------------------------- registry object

  class BridgeRegistry {
    var entries: Entries
    var nextGeneration: nat

    ghost function State(): Registry reads this { Registry(entries, nextGeneration) }

    constructor ()
      ensures State() == NoServers
    {
      entries, nextGeneration := map[], 0;
    }

    method Register(id: Id, url: string, name: string, now: nat) returns (generation: nat, changed: bool)
      modifies this
      ensures State() == BridgeNext(old(State()), BridgeStep.Register(id, url, name, now))
      ensures generation == old(nextGeneration)
      ensures changed == Signals(old(State()), BridgeStep.Register(id, url, name, now))
    {
      generation := nextGeneration;
      nextGeneration := nextGeneration + 1;
      if id in entries {
        var entry := entries[id];
        var nameChanges := !entry.renamed && entry.name != name;
        changed := entry.url != url || nameChanges;
        entry := entry.(url := url, lastSeen := now, conns := entry.conns + {generation});
        if nameChanges {
          entry := entry.(name := name);
        }
        entries := entries[id := entry];
      } else {
        entries := entries[id := Entry(url, name, false, now, {generation})];
        changed := true;
      }
    }

    method Unregister(id: Id, generation: nat) returns (removed: bool)
      modifies this
      ensures State() == BridgeNext(old(State()), BridgeStep.Unregister(id, generation))
      ensures removed == Signals(old(State()), BridgeStep.Unregister(id, generation))
    {
      removed := false;
      if id in entries && generation in entries[id].conns {
        var left := entries[id].conns - {generation};
        if left == {} {
          assert entries[id].conns == {generation};
          entries := entries - {id};
          removed := true;
        } else {
          entries := entries[id := entries[id].(conns := left)];
        }
      }
    }

    method Forget(id: Id) returns (found: bool)
      modifies this
      ensures State() == BridgeNext(old(State()), BridgeStep.Forget(id))
      ensures found == Signals(old(State()), BridgeStep.Forget(id))
    {
      found := id in entries;
      entries := entries - {id};
    }

    method Touch(id: Id, now: nat)
      modifies this
      ensures State() == BridgeNext(old(State()), BridgeStep.Touch(id, now))
    {
      if id in entries {
        entries := entries[id := entries[id].(lastSeen := now)];
      }
    }

    method ReapStale(now: nat, timeout: nat) returns (stale: set<Id>)
      modifies this
      ensures State() == BridgeNext(old(State()), Reap(now, timeout))
      ensures stale == old(entries).Keys - entries.Keys
      ensures forall id :: id in stale <==> id in old(entries) && old(entries)[id].lastSeen + timeout < now
      ensures stale != {} <==> Signals(old(State()), Reap(now, timeout))
    {
      stale := set id | id in entries && Elapsed(entries[id].lastSeen, now) > timeout;
      if stale == {} {
        assert forall id :: id in entries ==> id !in stale;
      }
      entries := entries - stale;
    }

    method Rename(id: Id, name: string) returns (found: bool)
      modifies this
      ensures State() == BridgeNext(old(State()), BridgeStep.Rename(id, name))
      ensures found == (id in old(entries))
    {
      found := id in entries;
      if found {
        entries := entries[id := entries[id].(name := name, renamed := true)];
      }
    }

    /** The servers in id order, whatever order the map yields them in. */
    method Servers() returns (rows: seq<ServerRow>)
      ensures IsListing(rows, entries)
    {
      rows := [];
      var todo := entries.Keys;
      RowLessIsStrict();
      while todo != {}
        invariant todo <= entries.Keys
        invariant Ascending(rows, RowLess)
        invariant forall r :: r in rows <==> r.id in entries && r.id !in todo && r == RowFor(r.id, entries[r.id])
        decreases todo
      {
        var id :| id in todo;
        var row := RowFor(id, entries[id]);
        forall r | r in rows ensures RowLess(row, r) || RowLess(r, row) {
          TextLessTotal(row.id.text, r.id.text);
        }
        InsertByAscends(row, rows, RowLess);
        InsertByElements(row, rows, RowLess);
        rows := InsertBy(row, rows, RowLess);
        todo := todo - {id};
      }
    }

    /** The connection a command goes to: the newest one. */
    method CommandTarget(id: Id) returns (target: Option<nat>)
      ensures target.None? <==> id !in entries || entries[id].conns == {}
      ensures target.Some? ==>
        target.value in entries[id].conns && forall g :: g in entries[id].conns ==> g <= target.value
    {
      target := None;
      if id in entries {
        var todo := entries[id].conns;
        while todo != {}
          invariant todo <= entries[id].conns
          invariant target.None? <==> todo == entries[id].conns
          invariant target.Some? ==> target.value in entries[id].conns
          invariant target.Some? ==> forall g :: g in entries[id].conns && g !in todo ==> g <= target.value
          decreases todo
        {
          var g :| g in todo;
          if target.None? || target.value < g {
            target := Some(g);
          }
          todo := todo - {g};
        }
      }
    }
  }

  // --------------------------------------------------------- trace meaning

  /** How many registrations a trace holds; the next generation. */
  function Registrations(trace: seq<BridgeStep>): nat {
    if trace == [] then 0
    else Registrations(trace[..|trace| - 1]) + (if trace[|trace| - 1].Register? then 1 else 0)
  }

  /** When the server was last heard from. */
  function LastHeard(trace: seq<BridgeStep>, id: Id): nat {
    if trace == [] then 0
    else
      var n := |trace| - 1;
      match trace[n]
      case Register(i, _, _, now) => if i == id then now else LastHeard(trace[..n], id)
      case Touch(i, now) => if i == id then now else LastHeard(trace[..n], id)
      case _ => LastHeard(trace[..n], id)
  }

  /** The step ends connection `g` of `id`: its own drop, an explicit close, or a reap
      that finds the server silent for too long. */
  predicate Ends(before: seq<BridgeStep>, step: BridgeStep, id: Id, g: nat) {
    match step
    case Unregister(i, h) => i == id && h == g
    case Forget(i) => i == id
    case Reap(now, timeout) => LastHeard(before, id) + timeout < now
    case _ => false
  }

  predicate Opens(before: seq<BridgeStep>, step: BridgeStep, id: Id, g: nat) {
    step.Register? && step.id == id && g == Registrations(before)
  }

  /** The reference definition: `g` was opened for `id` and nothing ended it since. */
  ghost predicate Live(trace: seq<BridgeStep>, id: Id, g: nat) {
    exists k :: LiveSince(trace, k, id, g)
  }

  ghost predicate LiveSince(trace: seq<BridgeStep>, k: int, id: Id, g: nat) {
    && 0 <= k < |trace|
    && Opens(trace[..k], trace[k], id, g)
    && forall j :: k < j < |trace| ==> !Ends(trace[..j], trace[j], id, g)
  }

  lemma LiveExtends(trace: seq<BridgeStep>, step: BridgeStep, id: Id, g: nat)
    ensures Live(trace + [step], id, g) <==>
      Opens(trace, step, id, g) || (Live(trace, id, g) && !Ends(trace, step, id, g))
  {
    var more, n := trace + [step], |trace|;
    assert more[..n] == trace && more[n] == step;
    assert forall j :: 0 <= j < n ==> more[..j] == trace[..j] && more[j] == trace[j];
    if Live(more, id, g) {
      var k :| LiveSince(more, k, id, g);
      if k < n {
        assert LiveSince(trace, k, id, g);
      }
    }
    if Opens(trace, step, id, g) {
      assert LiveSince(more, n, id, g);
    } else if Live(trace, id, g) && !Ends(trace, step, id, g) {
      var k :| LiveSince(trace, k, id, g);
      assert LiveSince(more, k, id, g);
    }
  }

  lemma {:induction false} GenerationsNeverRecur(trace: seq<BridgeStep>, j: nat, k: nat)
    requires j < k <= |trace|
    ensures Registrations(trace[..j]) + (if trace[j].Register? then 1 else 0) <= Registrations(trace[..k])
  {
    assert trace[..k][..k - 1] == trace[..k - 1];
    if j + 1 < k {
      GenerationsNeverRecur(trace, j, k - 1);
    } else {
      assert trace[..k][..j] == trace[..j];
    }
  }

  ghost predicate Faithful(trace: seq<BridgeStep>, r: Registry) {
    && r.nextGeneration == Registrations(trace)
    && (forall id :: id in r.entries ==> r.entries[id].conns != {} && r.entries[id].lastSeen == LastHeard(trace, id))
    && (forall id, g :: Live(trace, id, g) <==> id in r.entries && g in r.entries[id].conns)
  }

  /** A step opens, keeps and ends exactly the connections the trace says. */
  lemma StepMovesConns(trace: seq<BridgeStep>, r: Registry, step: BridgeStep, id: Id, g: nat)
    requires r.nextGeneration == Registrations(trace)
    requires id in r.entries ==> r.entries[id].lastSeen == LastHeard(trace, id)
    ensures var held := id in r.entries && g in r.entries[id].conns;
      var m' := BridgeNext(r, step).entries;
      id in m' && g in m'[id].conns <==> Opens(trace, step, id, g) || (held && !Ends(trace, step, id, g))
  {
    hide LastHeard, Registrations;
  }

  lemma StepKeepsEntries(trace: seq<BridgeStep>, r: Registry, step: BridgeStep, id: Id)
    requires id in r.entries ==> r.entries[id].conns != {} && r.entries[id].lastSeen == LastHeard(trace, id)
    requires id in BridgeNext(r, step).entries
    ensures var e := BridgeNext(r, step).entries[id]; e.conns != {} && e.lastSeen == LastHeard(trace + [step], id)
  {
    assert (trace + [step])[..|trace|] == trace;
    if step.Unregister? && step.id == id && r.entries[id].conns != {step.generation} {
      assert r.entries[id].conns - {step.generation} != {} by {
        var g :| g in r.entries[id].conns;
        if g == step.generation {
          assert exists h :: h in r.entries[id].conns && h != g;
        }
      }
    }
  }

  lemma StepStaysFaithful(trace: seq<BridgeStep>, r: Registry, step: BridgeStep)
    requires Faithful(trace, r)
    ensures Faithful(trace + [step], BridgeNext(r, step))
  {
    var more, r' := trace + [step], BridgeNext(r, step);
    assert r'.nextGeneration == Registrations(more) by {
      assert more[..|trace|] == trace;
    }
    hide BridgeNext, Registrations, LastHeard, Live, Opens, Ends;
    forall id | id in r'.entries ensures r'.entries[id].conns != {} && r'.entries[id].lastSeen == LastHeard(more, id) {
      StepKeepsEntries(trace, r, step, id);
    }
    forall id, g ensures Live(more, id, g) <==> id in r'.entries && g in r'.entries[id].conns {
      LiveExtends(trace, step, id, g);
      StepMovesConns(trace, r, step, id, g);
    }
  }

  /** The registry refines its trace: under any interleaving of registrations,
      arbitrarily late drops, closes, touches, renames and reaps, the connections held
      are exactly the live ones. */
  lemma {:induction false} RegistryIsFaithful(trace: seq<BridgeStep>)
    ensures Faithful(trace, BridgeAfter(trace))
  {
    if trace == [] {
      forall id, g ensures !Live([], id, g) {}
    } else {
      var n := |trace| - 1;
      RegistryIsFaithful(trace[..n]);
      StepStaysFaithful(trace[..n], BridgeAfter(trace[..n]), trace[n]);
      assert trace == trace[..n] + [trace[n]];
    }
  }

  /** A server is listed exactly while some connection of it is live. */
  lemma ListedIffLive(trace: seq<BridgeStep>, id: Id)
    ensures id in BridgeAfter(trace).entries <==> exists g :: Live(trace, id, g)
  {
    RegistryIsFaithful(trace);
    if id in BridgeAfter(trace).entries {
      var g :| g in BridgeAfter(trace).entries[id].conns;
      assert Live(trace, id, g);
    }
  }

  /** A reap drops exactly the listed servers whose last registration or touch, plus the
      timeout, is before its instant; the others are as they were. */
  lemma ReapDropsTheSilent(trace: seq<BridgeStep>, now: nat, timeout: nat, id: Id)
    ensures var m, m' := BridgeAfter(trace).entries, BridgeAfter(trace + [Reap(now, timeout)]).entries;
      && (id in m' <==> id in m && LastHeard(trace, id) + timeout >= now)
      && (id in m' ==> m'[id] == m[id])
  {
    assert (trace + [Reap(now, timeout)])[..|trace|] == trace;
    RegistryIsFaithful(trace);
    hide LastHeard, Live;
  }

  /** The drop of a connection that is no longer live, for instance one from before
      an explicit close and re-registration, changes nothing. */
  lemma StaleDropIsHarmless(trace: seq<BridgeStep>, id: Id, g: nat)
    requires !Live(trace, id, g)
    ensures BridgeAfter(trace + [Unregister(id, g)]) == BridgeAfter(trace)
  {
    RegistryIsFaithful(trace);
    assert (trace + [Unregister(id, g)])[..|trace|] == trace;
  }

  /** In particular: close, re-register, then the late drop of any earlier connection. */
  lemma LateDropAfterReopen(trace: seq<BridgeStep>, id: Id, g: nat, url: string, name: string, now: nat)
    requires g < Registrations(trace)
    ensures var reopened := trace + [Forget(id)] + [Register(id, url, name, now)];
      BridgeAfter(reopened + [Unregister(id, g)]) == BridgeAfter(reopened)
  {
    var closed := trace + [Forget(id)];
    var reopened := closed + [Register(id, url, name, now)];
    assert closed[..|trace|] == trace;
    LiveExtends(trace, Forget(id), id, g);
    LiveExtends(closed, Register(id, url, name, now), id, g);
    StaleDropIsHarmless(reopened, id, g);
  }

  // ---------------------------------------------------------- pinned names

  /** The rename in force for the current entry, if any. */
  function Pinned(trace: seq<BridgeStep>, id: Id): Option<string> {
    if trace == [] || id !in BridgeAfter(trace).entries then None
    else
      var n := |trace| - 1;
      if trace[n].Rename? && trace[n].id == id then Some(trace[n].name) else Pinned(trace[..n], id)
  }

  /** The url and name of the latest registration. */
  function Reported(trace: seq<BridgeStep>, id: Id): Option<(string, string)> {
    if trace == [] then None
    else
      var n := |trace| - 1;
      if trace[n].Register? && trace[n].id == id then Some((trace[n].url, trace[n].name)) else Reported(trace[..n], id)
  }

  /** What the rail shows of a listed server, from its history alone: the newest url,
      and the user's name for it if one was ever given to this entry, else the newest
      reported one. A rename survives every later registration, drop and touch. */
  lemma {:induction false} RenamesStick(trace: seq<BridgeStep>, id: Id)
    requires id in BridgeAfter(trace).entries
    ensures var e := BridgeAfter(trace).entries[id];
      && Reported(trace, id).Some?
      && e.url == Reported(trace, id).value.0
      && e.renamed == Pinned(trace, id).Some?
      && e.name == if e.renamed then Pinned(trace, id).value else Reported(trace, id).value.1
  {
    var n := |trace| - 1;
    var before := BridgeAfter(trace[..n]).entries;
    if id in before {
      RenamesStick(trace[..n], id);
    } else {
      assert trace[n].Register? && trace[n].id == id;
    }
  }

  /** The listing, read off the trace: the listed servers in id order, each with its newest
      url and with the name the user gave it, or else the one it reported. */
  lemma ListingReadOff(trace: seq<BridgeStep>, rows: seq<ServerRow>, i: nat, j: nat)
    requires IsListing(rows, BridgeAfter(trace).entries) && i <= j < |rows|
    ensures i < j ==> exists n: nat :: DiffersAt(rows[i].id.text, rows[j].id.text, n)
    ensures var row := rows[i];
      && (exists g :: Live(trace, row.id, g))
      && Reported(trace, row.id).Some? && row.url == Reported(trace, row.id).value.0
      && row.renamed == Pinned(trace, row.id).Some?
      && row.name == if row.renamed then Pinned(trace, row.id).value else Reported(trace, row.id).value.1
  {
    assert rows[i] in rows;
    assert i < j ==> RowLess(rows[i], rows[j]);
    TextLessMeaning(rows[i].id.text, rows[j].id.text);
    RenamesStick(trace, rows[i].id);
    ListedIffLive(trace, rows[i].id);
  }
}
