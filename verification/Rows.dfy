/** What the node rows look like in every state of every run, whatever is lost to crashes and
    errors on the way. */
module Rows {
  import opened Basics
  import opened Recompute
  import opened Tables
  import opened Ingest
  import opened Confluence

  /** The statements that reach the tables, each on its own: a crash or an error may separate any
      two of them. */
  datatype Event =
    | Upsert(identity: Identity, now: int)
    | Insert(check: Check)
    | Recompute(id: int)
    | Cleanup(olderThan: int)
    | DropChecks(gone: set<Key>)

  ghost predicate Step(t: Tables, e: Event, t': Tables) {
    match e
    case Upsert(identity, now) => exists id, created :: Upserted(t, identity, now, id, created, t')
    case Insert(c) => Fresh(t, c) && t' == t.(checks := t.checks[KeyOf(c) := c])
    case Recompute(id) => Recomputed(t, id, t')
    case Cleanup(olderThan) => t' == WithoutNodes(t, LongDead(t.nodes, olderThan))
    case DropChecks(gone) => t' == t.(checks := t.checks - gone)
  }

  ghost predicate IsRun(events: seq<Event>, states: seq<Tables>) {
    && |states| == |events| + 1 && states[0] == EMPTY
    && forall i :: 0 <= i < |events| ==> Step(states[i], events[i], states[i + 1])
  }

  ghost predicate Reachable(t: Tables) {
    exists events, states :: IsRun(events, states) && states[|events|] == t
  }

  // ---- the aggregate columns agree with one another ----

  predicate RowOk(row: Row) {
    && (row.status == Alive <==> row.bestClass != Unclassed)
    && (row.status == Alive <==> row.lastL1Ok.Some?)
  }

  ghost predicate RowsOk(t: Tables) {
    Valid(t) && forall id :: id in t.nodes ==> RowOk(t.nodes[id])
  }

  /** The aggregate columns, read off newest checks without an order. */
  ghost predicate Shows(row: Row, latest: Latest) {
    var passed := Passing(latest);
    && row.status == (if passed == {} then Dead else Alive)
    && (row.bestClass == Rf <==> exists v :: v in passed && IsEdge(v))
    && (row.bestClass == Unclassed <==> passed == {})
    && (row.lastL1Ok.None? <==> passed == {})
  }

  lemma DescribedShows(latest: Latest, s: Summary, row: Row)
    requires Describes(s, latest, latest.Keys) && RowShows(row, s)
    ensures Shows(row, latest)
  {
    assert Passing(latest) * latest.Keys == Passing(latest);
  }

  lemma SummaryShows(checks: Checks, id: int, row: Row) returns (latest: Latest)
    requires Summarised(checks, id, row)
    ensures IsLatest(checks, id, latest) && Shows(row, latest)
  {
    var order;
    latest, order :| IsLatest(checks, id, latest) && IsOrder(order, latest.Keys) && RowShows(row, Scan(order, latest));
    assert latest.Keys == set v | v in order;
    ScanDescribes(order, latest, latest.Keys);
    DescribedShows(latest, Scan(order, latest), row);
  }

  lemma SummaryOk(checks: Checks, id: int, row: Row)
    requires Summarised(checks, id, row)
    ensures RowOk(row)
  {
    var latest := SummaryShows(checks, id, row);
  }

  lemma StepKeepsRowsOk(t: Tables, e: Event, t': Tables)
    requires RowsOk(t) && Step(t, e, t')
    ensures RowsOk(t')
  {
    hide Summarised;
    if e.Recompute? && e.id in t.nodes {
      SummaryOk(t.checks, e.id, t'.nodes[e.id]);
    }
  }

  lemma {:induction false} RunKeepsRowsOk(events: seq<Event>, states: seq<Tables>, n: nat)
    requires IsRun(events, states) && n <= |events|
    ensures RowsOk(states[n])
  {
    if n > 0 {
      RunKeepsRowsOk(events, states, n - 1);
      StepKeepsRowsOk(states[n - 1], events[n - 1], states[n]);
    }
  }

  /** In every reachable state: alive exactly when classified, exactly when last_l1_ok_at is set. */
  lemma ReachableRowsOk(t: Tables)
    requires Reachable(t)
    ensures RowsOk(t)
  {
    var events, states :| IsRun(events, states) && states[|events|] == t;
    RunKeepsRowsOk(events, states, |events|);
  }

  /** The coordinator's ingestion stays among the reachable states. */
  lemma TookReachable(parses: string -> bool, w: World, c: Check, w': World)
    requires Reachable(w.tables) && Took(parses, w, c, w')
    ensures Reachable(w'.tables)
  {
    if Fresh(w.tables, c) {
      var stored := w.tables.(checks := w.tables.checks[KeyOf(c) := c]);
      StepReachable(w.tables, Insert(c), stored);
      StepReachable(stored, Recompute(c.node), w'.tables);
    }
  }

  lemma StepReachable(t: Tables, e: Event, t': Tables)
    requires Reachable(t) && Step(t, e, t')
    ensures Reachable(t')
  {
    var events, states :| IsRun(events, states) && states[|events|] == t;
    var more, after := events + [e], states + [t'];
    forall i | 0 <= i < |more| ensures Step(after[i], more[i], after[i + 1]) {
      if i < |events| {
        assert Step(states[i], events[i], states[i + 1]);
      }
    }
    assert IsRun(more, after);
  }

  lemma {:induction false} TraceReachable(parses: string -> bool, cs: seq<Check>, trace: seq<World>, n: nat)
    requires IsTrace(parses, cs, trace) && n <= |cs| && Reachable(trace[0].tables)
    ensures Reachable(trace[n].tables)
  {
    if n > 0 {
      TraceReachable(parses, cs, trace, n - 1);
      TookReachable(parses, trace[n - 1], cs[n - 1], trace[n]);
    }
  }

  lemma DeliveredReachable(parses: string -> bool, w: World, cs: seq<Check>, w': World)
    requires Reachable(w.tables) && Delivered(parses, w, cs, w')
    ensures Reachable(w'.tables)
  {
    var trace :| IsTrace(parses, cs, trace) && trace[0] == w && trace[|cs|] == w';
    TraceReachable(parses, cs, trace, |cs|);
  }

  // ---- when a row is alive ----

  /** A passing L1 that no newer check from its vantage, of whatever stage, hides. */
  ghost predicate IsLatestPass(checks: Checks, k: Key) {
    && k in checks && PassedL1(checks[k])
    && forall j :: j in checks && j.node == k.node && j.vantage == k.vantage ==> checks[j].ts <= checks[k].ts
  }

  ghost predicate Unhidden(checks: Checks, id: int) {
    exists k: Key :: k.node == id && IsLatestPass(checks, k)
  }

  /** The row turns alive exactly when some passing L1 is its vantage's latest check of any stage. */
  lemma AliveIff(checks: Checks, id: int, row: Row)
    requires NoTies(checks) && Summarised(checks, id, row)
    ensures row.status == Alive <==> Unhidden(checks, id)
  {
    var latest := SummaryShows(checks, id, row);
    AliveIffShown(checks, id, latest, row);
  }

  lemma AliveIffShown(checks: Checks, id: int, latest: Latest, row: Row)
    requires NoTies(checks) && IsLatest(checks, id, latest) && Shows(row, latest)
    ensures row.status == Alive <==> Unhidden(checks, id)
  {
    if row.status == Alive {
      var v :| v in Passing(latest);
      var k :| k in checks && k.node == id && k.vantage == v && latest[v] == checks[k];
    }
    if Unhidden(checks, id) {
      var k: Key :| k.node == id && IsLatestPass(checks, k);
      var l :| l in checks && l.node == id && l.vantage == k.vantage && latest[k.vantage] == checks[l];
      assert checks[l].ts == checks[k].ts;
      assert k.vantage in Passing(latest);
    }
  }

  /** And last_l1_ok_at is then the newest time of such a pass. */
  lemma LastOkIsNewest(checks: Checks, id: int, row: Row)
    requires NoTies(checks) && Summarised(checks, id, row) && row.lastL1Ok.Some?
    ensures exists k: Key :: k.node == id && IsLatestPass(checks, k) && checks[k].ts == row.lastL1Ok.value
    ensures forall k: Key :: k.node == id && IsLatestPass(checks, k) ==> checks[k].ts <= row.lastL1Ok.value
  {
    hide Scan;
    var latest, order :|
      IsLatest(checks, id, latest) && IsOrder(order, latest.Keys) && RowShows(row, Scan(order, latest));
    assert latest.Keys == set v | v in order;
    ScanDescribes(order, latest, latest.Keys);
    LastOkShown(checks, id, latest, Scan(order, latest));
  }

  lemma LastOkShown(checks: Checks, id: int, latest: Latest, s: Summary)
    requires NoTies(checks) && IsLatest(checks, id, latest) && Describes(s, latest, latest.Keys) && s.lastL1Ok.Some?
    ensures exists k: Key :: k.node == id && IsLatestPass(checks, k) && checks[k].ts == s.lastL1Ok.value
    ensures forall k: Key :: k.node == id && IsLatestPass(checks, k) ==> checks[k].ts <= s.lastL1Ok.value
  {
    var v :| v in Passing(latest) * latest.Keys && latest[v].ts == s.lastL1Ok.value;
    var l :| l in checks && l.node == id && l.vantage == v && latest[v] == checks[l];
    assert IsLatestPass(checks, l);
    forall k: Key | k.node == id && IsLatestPass(checks, k) ensures checks[k].ts <= s.lastL1Ok.value {
      var j :| j in checks && j.node == id && j.vantage == k.vantage && latest[k.vantage] == checks[j];
      assert checks[j].ts == checks[k].ts;
      assert k.vantage in Passing(latest) * latest.Keys;
    }
  }

  lemma LatestIsNewest(checks: Checks, c: Check, latest: Latest)
    requires IsLatest(checks, c.node, latest) && KeyOf(c) in checks && checks[KeyOf(c)] == c
    requires forall k :: k in checks && k.node == c.node && k != KeyOf(c) ==>
                           k.vantage == c.vantage && checks[k].ts < c.ts
    ensures forall v :: v in latest ==> latest[v] == c
  {
    forall v | v in latest ensures latest[v] == c {
      var k :| k in checks && k.node == c.node && k.vantage == v && latest[v] == checks[k];
    }
  }

  lemma NewestFails(checks: Checks, c: Check, row: Row)
    requires Summarised(checks, c.node, row) && !PassedL1(c)
    requires KeyOf(c) in checks && checks[KeyOf(c)] == c
    requires forall k :: k in checks && k.node == c.node && k != KeyOf(c) ==>
                           k.vantage == c.vantage && checks[k].ts < c.ts
    ensures row.status == Dead && row.lastL1Ok == None
  {
    var latest := SummaryShows(checks, c.node, row);
    LatestIsNewest(checks, c, latest);
    assert Passing(latest) == {};
  }

  /** A newer check of another stage hides every earlier L1 pass: an L0 or even an L2 pass from the
      only vantage leaves the node dead. */
  lemma LaterStageHides(parses: string -> bool, w: World, c: Check, w': World)
    requires Took(parses, w, c, w') && Fresh(w.tables, c) && c.stage != "L1"
    requires Valid(w.tables)
    requires forall k :: k in w.tables.checks && k.node == c.node ==> k.vantage == c.vantage && k.ts < c.ts
    ensures w'.tables.nodes[c.node].status == Dead && w'.tables.nodes[c.node].lastL1Ok == None
  {
    NewestFails(w'.tables.checks, c, w'.tables.nodes[c.node]);
  }

  // ---- the class ----

  /** Some edge vantage's latest check is a passing L1. */
  ghost predicate EdgePass(checks: Checks, id: int) {
    exists k: Key :: k.node == id && IsEdge(k.vantage) && IsLatestPass(checks, k)
  }

  /** The row is classed rf only if some edge vantage's latest check is a passing L1, and, without
      ties, exactly then. */
  lemma RfIff(checks: Checks, id: int, row: Row)
    requires Summarised(checks, id, row)
    ensures row.bestClass == Rf ==> EdgePass(checks, id)
    ensures NoTies(checks) ==> (row.bestClass == Rf <==> EdgePass(checks, id))
  {
    var latest := SummaryShows(checks, id, row);
    RfIffShown(checks, id, latest, row);
  }

  lemma RfIffShown(checks: Checks, id: int, latest: Latest, row: Row)
    requires IsLatest(checks, id, latest) && Shows(row, latest)
    ensures row.bestClass == Rf ==> EdgePass(checks, id)
    ensures NoTies(checks) && EdgePass(checks, id) ==> row.bestClass == Rf
  {
    if row.bestClass == Rf {
      var v :| v in Passing(latest) && IsEdge(v);
      var k :| k in checks && k.node == id && k.vantage == v && latest[v] == checks[k];
      assert IsLatestPass(checks, k);
    }
    if NoTies(checks) && EdgePass(checks, id) {
      var k: Key :| k.node == id && IsEdge(k.vantage) && IsLatestPass(checks, k);
      var l :| l in checks && l.node == id && l.vantage == k.vantage && latest[k.vantage] == checks[l];
      assert checks[l].ts == checks[k].ts;
      assert k.vantage in Passing(latest);
    }
  }

  lemma RfStep(t: Tables, e: Event, t': Tables, id: int)
    requires Step(t, e, t') && id in t'.nodes && t'.nodes[id].bestClass == Rf
    requires !(id in t.nodes && t.nodes[id].bestClass == Rf)
    ensures e == Recompute(id) && Summarised(t.checks, id, t'.nodes[id])
  {
  }

  /** A row classed rf was recomputed when a passing L1 was some edge vantage's latest check, and has
      kept the class since. */
  lemma {:induction false} RfHasCause(events: seq<Event>, states: seq<Tables>, n: nat, id: int) returns (i: nat)
    requires IsRun(events, states) && n <= |events|
    requires id in states[n].nodes && states[n].nodes[id].bestClass == Rf
    ensures i < n && events[i] == Recompute(id) && EdgePass(states[i].checks, id)
    ensures forall j :: i < j <= n ==> id in states[j].nodes && states[j].nodes[id].bestClass == Rf
  {
    hide Step;
    assert n > 0;
    var t := states[n - 1];
    if id in t.nodes && t.nodes[id].bestClass == Rf {
      i := RfHasCause(events, states, n - 1, id);
    } else {
      RfStep(t, events[n - 1], states[n], id);
      RfIff(t.checks, id, states[n].nodes[id]);
      i := n - 1;
    }
  }

  ghost predicate NoEdgeL1(checks: Checks) {
    forall k :: k in checks && IsEdge(checks[k].vantage) ==> checks[k].stage != "L1"
  }

  ghost predicate NoRf(nodes: Nodes) {
    forall id :: id in nodes ==> nodes[id].bestClass != Rf
  }

  lemma NoEdgePasses(checks: Checks, id: int, latest: Latest)
    requires (forall k :: k in checks ==> checks[k].vantage == k.vantage)
    requires NoEdgeL1(checks) && IsLatest(checks, id, latest)
    ensures forall v :: v in Passing(latest) ==> !IsEdge(v)
  {
    forall v | v in Passing(latest) ensures !IsEdge(v) {
      var k :| k in checks && k.node == id && k.vantage == v && latest[v] == checks[k];
    }
  }

  lemma NoRfSummary(checks: Checks, id: int, row: Row)
    requires (forall k :: k in checks ==> checks[k].vantage == k.vantage)
    requires NoEdgeL1(checks) && Summarised(checks, id, row)
    ensures row.bestClass != Rf
  {
    var latest := SummaryShows(checks, id, row);
    NoEdgePasses(checks, id, latest);
  }

  lemma NoRfStep(t: Tables, e: Event, t': Tables)
    requires Valid(t) && NoEdgeL1(t.checks) && NoRf(t.nodes) && Step(t, e, t')
    requires e.Insert? && IsEdge(e.check.vantage) ==> e.check.stage != "L1"
    ensures NoEdgeL1(t'.checks) && NoRf(t'.nodes)
  {
    if e.Recompute? && e.id in t.nodes {
      NoRfSummary(t.checks, e.id, t'.nodes[e.id]);
    }
  }

  /** While edge vantages report no check under stage "L1", no row is ever classed rf. */
  lemma {:induction false} RfUnreachable(events: seq<Event>, states: seq<Tables>, n: nat)
    requires IsRun(events, states) && n <= |events|
    requires forall e <- events :: e.Insert? && IsEdge(e.check.vantage) ==> e.check.stage != "L1"
    ensures NoRf(states[n].nodes) && NoEdgeL1(states[n].checks)
  {
    if n > 0 {
      RfUnreachable(events, states, n - 1);
      RunKeepsRowsOk(events, states, n - 1);
      NoRfStep(states[n - 1], events[n - 1], states[n]);
    }
  }

  /** And with a passing L1 from an edge vantage, a run ends in a row classed rf. */
  lemma RfReachable(identity: Identity, now: int, c: Check, score: real) returns (t: Tables)
    requires c.node == 1 && IsEdge(c.vantage) && PassedL1(c)
    ensures Reachable(t) && 1 in t.nodes && t.nodes[1].bestClass == Rf && t.checks == map[KeyOf(c) := c]
  {
    hide Summarised, Reachable;
    var stored := OneNode(identity, now).(checks := map[KeyOf(c) := c]);
    OneNodeReachable(identity, now);
    StepReachable(OneNode(identity, now), Insert(c), stored);
    var row := NewRow(identity, now).(status := Alive, bestClass := Rf, score := score, lastL1Ok := Some(c.ts));
    t := stored.(nodes := map[1 := row]);
    OnlyCheckSummary(c, row);
    StepReachable(stored, Recompute(1), t);
  }

  lemma OnlyCheckSummary(c: Check, row: Row)
    requires IsEdge(c.vantage) && PassedL1(c)
    requires row.status == Alive && row.bestClass == Rf && row.lastL1Ok == Some(c.ts)
    ensures Summarised(map[KeyOf(c) := c], c.node, row)
  {
    var latest: Latest := map[c.vantage := c];
    assert IsLatest(map[KeyOf(c) := c], c.node, latest) by {
      assert KeyOf(c) in map[KeyOf(c) := c];
    }
    ScanOne(c.vantage, latest);
    assert IsOrder([c.vantage], latest.Keys) && RowShows(row, Scan([c.vantage], latest));
  }

  // ---- the nightly cleanup ----

  /** A dead row has no last_l1_ok_at to fall back on, so the cleanup goes by first_seen alone. */
  lemma CleanupByFirstSeen(t: Tables, olderThan: int)
    requires Reachable(t)
    ensures LongDead(t.nodes, olderThan) ==
            set id | id in t.nodes && t.nodes[id].status == Dead && t.nodes[id].firstSeen < olderThan
  {
    ReachableRowsOk(t);
    assert forall id :: id in t.nodes && t.nodes[id].status == Dead ==> RowOk(t.nodes[id]);
  }

  lemma FirstPass(parses: string -> bool, identity: Identity, first: int, c: Check, alive: World)
    requires c.node == 1 && PassedL1(c) && Took(parses, World(OneNode(identity, first), []), c, alive)
    ensures alive.tables.checks == map[KeyOf(c) := c] && 1 in alive.tables.nodes
    ensures alive.tables.nodes[1].status == Alive && alive.tables.nodes[1].firstSeen == first
  {
    assert IsLatestPass(alive.tables.checks, KeyOf(c));
    AliveIff(alive.tables.checks, 1, alive.tables.nodes[1]);
  }

  lemma ThenFails(parses: string -> bool, alive: World, c: Check, d: Check, dead: World)
    requires c.node == d.node == 1 && c.vantage == d.vantage && c.ts < d.ts && !PassedL1(d)
    requires alive.tables.checks == map[KeyOf(c) := c] && 1 in alive.tables.nodes
    requires Took(parses, alive, d, dead)
    ensures 1 in dead.tables.nodes && dead.tables.nodes[1].firstSeen == alive.tables.nodes[1].firstSeen
    ensures dead.tables.nodes[1].status == Dead && dead.tables.nodes[1].lastL1Ok == None
  {
    NewestFails(dead.tables.checks, d, dead.tables.nodes[1]);
  }

  /** The documented rule counts fourteen days of being dead. The code deletes a node first seen
      before the limit although it passed, and was alive, after the limit. */
  lemma DeletedSoonAfterPassing(
      parses: string -> bool, identity: Identity, first: int, c: Check, d: Check, alive: World, dead: World,
      olderThan: int)
    requires c.node == d.node == 1 && c.vantage == d.vantage && first < olderThan <= c.ts < d.ts
    requires PassedL1(c) && !PassedL1(d)
    requires Took(parses, World(OneNode(identity, first), []), c, alive) && Took(parses, alive, d, dead)
    ensures alive.tables.nodes[1].status == Alive && 1 in LongDead(dead.tables.nodes, olderThan)
  {
    FirstPass(parses, identity, first, c, alive);
    ThenFails(parses, alive, c, d, dead);
  }

  // ---- when a row agrees with its checks ----

  /** Nothing the event does touches the checks of the node. */
  predicate LeavesChecks(e: Event, id: int) {
    && (e.Insert? ==> e.check.node != id)
    && (e.DropChecks? ==> forall k :: k in e.gone ==> k.node != id)
  }

  /** A serial is never drawn twice, so a node that is there was there all the time. */
  lemma {:induction false} RowStayed(events: seq<Event>, states: seq<Tables>, i: nat, n: nat, id: int)
    requires IsRun(events, states) && i <= n <= |events| && id < states[i].nextId && id in states[n].nodes
    ensures states[i].nextId <= states[n].nextId
    ensures forall j :: i <= j <= n ==> id in states[j].nodes
  {
    if i < n {
      SerialsGrow(events, states, i, n - 1);
      var t, e := states[n - 1], events[n - 1];
      assert Step(t, e, states[n]);
      assert id in t.nodes;
      RowStayed(events, states, i, n - 1, id);
    }
  }

  lemma {:induction false} SerialsGrow(events: seq<Event>, states: seq<Tables>, i: nat, n: nat)
    requires IsRun(events, states) && i <= n <= |events|
    ensures states[i].nextId <= states[n].nextId
  {
    if i < n {
      SerialsGrow(events, states, i, n - 1);
      assert Step(states[n - 1], events[n - 1], states[n]);
    }
  }

  /** The summary of a node depends on its own checks only. */
  lemma SameChecksSameSummary(was: Checks, now: Checks, id: int, row: Row)
    requires Summarised(was, id, row)
    requires forall k: Key :: k.node == id ==> (k in was <==> k in now) && (k in was ==> was[k] == now[k])
    ensures Summarised(now, id, row)
  {
    var latest, order :|
      IsLatest(was, id, latest) && IsOrder(order, latest.Keys) && RowShows(row, Scan(order, latest));
    SameChecksSameLatest(was, now, id, latest);
  }

  lemma SameChecksSameLatest(was: Checks, now: Checks, id: int, latest: Latest)
    requires IsLatest(was, id, latest)
    requires forall k: Key :: k.node == id ==> (k in was <==> k in now) && (k in was ==> was[k] == now[k])
    ensures IsLatest(now, id, latest)
  {
    forall v | v in latest ensures exists k :: k in now && k.node == id && k.vantage == v && latest[v] == now[k] {
      var k :| k in was && k.node == id && k.vantage == v && latest[v] == was[k];
      assert k in now;
    }
  }

  lemma SameColumnsSameSummary(checks: Checks, id: int, a: Row, b: Row)
    requires Summarised(checks, id, a)
    requires a.status == b.status && a.bestClass == b.bestClass && a.lastL1Ok == b.lastL1Ok
    ensures Summarised(checks, id, b)
  {
    var latest, order :|
      IsLatest(checks, id, latest) && IsOrder(order, latest.Keys) && RowShows(a, Scan(order, latest));
    assert RowShows(b, Scan(order, latest));
  }

  /** What a step that leaves the checks of the node alone does to them and to its row. */
  lemma StepElsewhere(t: Tables, e: Event, t': Tables, id: int)
    requires Step(t, e, t') && LeavesChecks(e, id) && id in t.nodes && id in t'.nodes
    ensures forall k: Key :: k.node == id ==> (k in t.checks <==> k in t'.checks) && (k in t.checks ==> t.checks[k] == t'.checks[k])
    ensures e != Recompute(id) ==>
      && t'.nodes[id].status == t.nodes[id].status && t'.nodes[id].bestClass == t.nodes[id].bestClass
      && t'.nodes[id].lastL1Ok == t.nodes[id].lastL1Ok
    ensures e == Recompute(id) ==> t'.checks == t.checks && Summarised(t.checks, id, t'.nodes[id])
  {
    hide Summarised;
  }

  lemma StepKeepsAgreement(t: Tables, e: Event, t': Tables, id: int)
    requires Step(t, e, t') && LeavesChecks(e, id) && id in t.nodes && id in t'.nodes
    requires Summarised(t.checks, id, t.nodes[id])
    ensures Summarised(t'.checks, id, t'.nodes[id])
  {
    StepElsewhere(t, e, t', id);
    hide Step, Summarised, LeavesChecks;
    if e != Recompute(id) {
      SameColumnsSameSummary(t.checks, id, t.nodes[id], t'.nodes[id]);
      SameChecksSameSummary(t.checks, t'.checks, id, t'.nodes[id]);
    }
  }

  lemma RecomputedAgrees(t: Tables, t': Tables, id: int)
    requires Step(t, Recompute(id), t') && id in t.nodes
    ensures id in t'.nodes && Summarised(t'.checks, id, t'.nodes[id]) && t'.nextId == t.nextId
  {
  }

  /** In any run, once a node was recomputed its row agrees with its checks for as long as none of them
      is added or dropped, whatever else happens in between. */
  lemma {:induction false} RowAgrees(events: seq<Event>, states: seq<Tables>, i: nat, n: nat, id: int)
    requires IsRun(events, states) && i < n <= |events|
    requires events[i] == Recompute(id) && id in states[i].nodes && id in states[n].nodes
    requires forall j :: i < j < n ==> LeavesChecks(events[j], id)
    ensures Summarised(states[n].checks, id, states[n].nodes[id])
  {
    hide Summarised, LeavesChecks;
    RunKeepsRowsOk(events, states, i);
    assert Step(states[n - 1], events[n - 1], states[n]);
    if n == i + 1 {
      RecomputedAgrees(states[i], states[n], id);
    } else {
      RowStayed(events, states, i, n, id);
      hide Step;
      RowAgrees(events, states, i, n - 1, id);
      StepKeepsAgreement(states[n - 1], events[n - 1], states[n], id);
    }
  }

  // ---- a crash between InsertCheck and the recompute ----

  function OneNode(identity: Identity, now: int): Tables {
    Tables(map[1 := NewRow(identity, now)], map[], 2)
  }

  lemma OneNodeReachable(identity: Identity, now: int)
    ensures Reachable(OneNode(identity, now))
  {
    var events: seq<Event> := [];
    assert IsRun(events, [EMPTY]) && [EMPTY][|events|] == EMPTY;
    assert Upserted(EMPTY, identity, now, 1, true, OneNode(identity, now));
    StepReachable(EMPTY, Upsert(identity, now), OneNode(identity, now));
  }

  /** The check is stored, the row is not rebuilt, and no redelivery of it ever rebuilds the row. */
  lemma CrashLeavesStaleRow(parses: string -> bool, identity: Identity, now: int, c: Check, again: seq<Check>, w': World)
    requires c.node == 1 && PassedL1(c) && forall d <- again :: d == c
    requires var t := OneNode(identity, now).(checks := map[KeyOf(c) := c]);
             Delivered(parses, World(t, []), again, w')
    ensures Reachable(OneNode(identity, now).(checks := map[KeyOf(c) := c]))
    ensures Unhidden(w'.tables.checks, 1) && w'.tables.nodes == map[1 := NewRow(identity, now)]
  {
    var t := OneNode(identity, now).(checks := map[KeyOf(c) := c]);
    OneNodeReachable(identity, now);
    StepReachable(OneNode(identity, now), Insert(c), t);
    RedeliveryChangesNothing(parses, World(t, []), again, w');
    assert KeyOf(c) in t.checks;
  }

  // ---- first_seen and last_seen ----

  /** Event `i` created the row, event `j` was the last to report its link. */
  ghost predicate SeenAt(events: seq<Event>, n: nat, id: int, row: Row, i: int, j: int) {
    && 0 <= i <= j < n <= |events|
    && events[i] == Upsert(row.identity, row.firstSeen)
    && events[j].Upsert? && events[j].identity.hash == row.identity.hash && events[j].now == row.lastSeen
    && forall k :: j < k < n && events[k].Upsert? ==> events[k].identity.hash != row.identity.hash
  }

  /** In every state of every run, a row keeps the link it was created with, first_seen is the time of
      that report, and last_seen the time of the latest report of a link with its hash. */
  lemma {:induction false} SeenTimes(events: seq<Event>, states: seq<Tables>, n: nat, id: int) returns (i: int, j: int)
    requires IsRun(events, states) && n <= |events| && id in states[n].nodes
    ensures SeenAt(events, n, id, states[n].nodes[id], i, j)
  {
    var t, e := states[n - 1], events[n - 1];
    RunKeepsRowsOk(events, states, n - 1);
    assert Step(t, e, states[n]);
    SeenStep(t, e, states[n], id);
    if id in t.nodes {
      i, j := SeenTimes(events, states, n - 1, id);
      if e.Upsert? && e.identity.hash == t.nodes[id].identity.hash {
        j := n - 1;
      }
    } else {
      i, j := n - 1, n - 1;
    }
  }

  lemma SeenStep(t: Tables, e: Event, t': Tables, id: int)
    requires RowsOk(t) && Step(t, e, t') && id in t'.nodes
    ensures id !in t.nodes ==>
      e == Upsert(t'.nodes[id].identity, t'.nodes[id].firstSeen) && t'.nodes[id].lastSeen == t'.nodes[id].firstSeen
    ensures id in t.nodes ==>
      && t'.nodes[id].identity == t.nodes[id].identity && t'.nodes[id].firstSeen == t.nodes[id].firstSeen
      && t'.nodes[id].lastSeen ==
           if e.Upsert? && e.identity.hash == t.nodes[id].identity.hash then e.now else t.nodes[id].lastSeen
  {
    hide Summarised;
  }
}
