/** Where stored checks come from: each says, field by field, what some worker reported, and what a
    probe found decides the row. */
module Provenance {
  import opened Basics
  import opened Recompute
  import opened Tables
  import opened Ingest
  import opened Confluence
  import opened Rows
  import FanOut

  // ---- every new check is a report, and every report is a check ----

  predicate ToldBy(c: Check, d: Batch) {
    exists i :: 0 <= i < |d.items| && Tells(c, d, d.items[i])
  }

  ghost predicate AreStamped(deliveries: seq<Batch>, stamped: seq<seq<Check>>) {
    |stamped| == |deliveries| && forall i :: 0 <= i < |deliveries| ==> Stamped(deliveries[i], stamped[i])
  }

  lemma {:induction false} FlatMember(stamped: seq<seq<Check>>, c: Check) returns (i: nat)
    requires c in Flat(stamped)
    ensures i < |stamped| && c in stamped[i]
  {
    var n := |stamped| - 1;
    if c in stamped[n] {
      i := n;
    } else {
      i := FlatMember(stamped[..n], c);
    }
  }

  lemma {:induction false} FlatHolds(stamped: seq<seq<Check>>, i: nat, c: Check)
    requires i < |stamped| && c in stamped[i]
    ensures c in Flat(stamped)
  {
    var n := |stamped| - 1;
    if i < n {
      FlatHolds(stamped[..n], i, c);
    }
  }

  lemma FlatIsTold(deliveries: seq<Batch>, stamped: seq<seq<Check>>, c: Check) returns (d: Batch)
    requires AreStamped(deliveries, stamped) && c in Flat(stamped)
    ensures d in deliveries && ToldBy(c, d)
  {
    var i := FlatMember(stamped, c);
    d := deliveries[i];
    var j :| 0 <= j < |stamped[i]| && stamped[i][j] == c;
    assert IsStamp(d, d.items[j], c);
    StampTells(d, d.items[j], c);
  }

  lemma ItemIsStamped(deliveries: seq<Batch>, stamped: seq<seq<Check>>, i: nat, j: nat) returns (c: Check)
    requires AreStamped(deliveries, stamped) && i < |deliveries| && j < |deliveries[i].items|
    ensures c in Flat(stamped) && Tells(c, deliveries[i], deliveries[i].items[j])
    ensures deliveries[i].items[j].ts.Some? ==> KeyOf(c) == ItemKey(deliveries[i], deliveries[i].items[j])
  {
    c := stamped[i][j];
    assert IsStamp(deliveries[i], deliveries[i].items[j], c);
    StampTells(deliveries[i], deliveries[i].items[j], c);
    FlatHolds(stamped, i, c);
  }

  /** Whatever is delivered in whatever order: no stored check changes, every new one says what an item
      of a delivered batch says and is stored under its own key, and every item of a known node with a
      readable time has a check under its key. */
  lemma ChecksAreReports(parses: string -> bool, w: World, deliveries: seq<Batch>, w': World)
    requires Consumed(parses, w, deliveries, w')
    ensures forall k :: k in w.tables.checks ==> k in w'.tables.checks && w'.tables.checks[k] == w.tables.checks[k]
    ensures forall k :: k in w'.tables.checks && k !in w.tables.checks ==>
              && KeyOf(w'.tables.checks[k]) == k && k.node in w.tables.nodes
              && exists d :: d in deliveries && ToldBy(w'.tables.checks[k], d)
    ensures forall d <- deliveries :: forall item <- d.items ::
              item.ts.Some? && item.node in w.tables.nodes ==> ItemKey(d, item) in w'.tables.checks
  {
    var was, now := w.tables.checks, w'.tables.checks;
    var stamped: seq<seq<Check>> :| AreStamped(deliveries, stamped) && Delivered(parses, w, Flat(stamped), w');
    DeliveredAccounted(parses, w, Flat(stamped), w');
    assert IsMerge(w.tables, Elements(Flat(stamped)), now);
    forall k | k in now && k !in was ensures exists d :: d in deliveries && ToldBy(now[k], d) {
      var d := FlatIsTold(deliveries, stamped, now[k]);
    }
    forall d <- deliveries ensures forall item <- d.items ::
      item.ts.Some? && item.node in w.tables.nodes ==> ItemKey(d, item) in now
    {
      forall item <- d.items | item.ts.Some? && item.node in w.tables.nodes ensures ItemKey(d, item) in now {
        var i :| 0 <= i < |deliveries| && deliveries[i] == d;
        var j :| 0 <= j < |d.items| && d.items[j] == item;
        var c := ItemIsStamped(deliveries, stamped, i, j);
        assert c in Elements(Flat(stamped));
      }
    }
  }

  /** All times in the batches are readable, and no other item has the key of this one. */
  ghost predicate OnlyReport(deliveries: seq<Batch>, d: Batch, item: Item)
    requires item.ts.Some?
  {
    forall e <- deliveries :: forall i <- e.items ::
      i.ts.Some? && ((e.vantage, e.stage, i.node, i.ts) == (d.vantage, d.stage, item.node, item.ts) ==> i == item)
  }

  lemma OnlyTells(deliveries: seq<Batch>, d: Batch, item: Item, e: Batch, c: Check)
    requires item.ts.Some? && OnlyReport(deliveries, d, item) && e in deliveries && ToldBy(c, e)
    requires KeyOf(c) == ItemKey(d, item)
    ensures Tells(c, d, item)
  {
    var i :| 0 <= i < |e.items| && Tells(c, e, e.items[i]);
    assert e.items[i] in e.items;
  }

  /** A report that is the only one of its key is stored as it was reported, unless its key was known. */
  lemma OnlyReportStored(parses: string -> bool, w: World, deliveries: seq<Batch>, w': World, d: Batch, item: Item)
    requires Consumed(parses, w, deliveries, w') && d in deliveries && item in d.items
    requires item.ts.Some? && item.node in w.tables.nodes && ItemKey(d, item) !in w.tables.checks
    requires OnlyReport(deliveries, d, item)
    ensures ItemKey(d, item) in w'.tables.checks && Tells(w'.tables.checks[ItemKey(d, item)], d, item)
  {
    ChecksAreReports(parses, w, deliveries, w');
    var k := ItemKey(d, item);
    assert k in w'.tables.checks && k !in w.tables.checks;
    var e :| e in deliveries && ToldBy(w'.tables.checks[k], e);
    OnlyTells(deliveries, d, item, e, w'.tables.checks[k]);
  }

  /** Of two reports with one key, the one that came first stays, whatever comes later. */
  lemma FirstReportWins(
      parses: string -> bool, w: World, first: Batch, mid: World, later: seq<Batch>, w': World, item: Item)
    requires Consumed(parses, w, [first], mid) && Consumed(parses, mid, later, w') && item in first.items
    requires item.ts.Some? && item.node in w.tables.nodes && ItemKey(first, item) !in w.tables.checks
    requires OnlyReport([first], first, item)
    ensures ItemKey(first, item) in w'.tables.checks
    ensures Tells(w'.tables.checks[ItemKey(first, item)], first, item)
  {
    OnlyReportStored(parses, w, [first], mid, first, item);
    ChecksAreReports(parses, mid, later, w');
  }

  // ---- one result, end to end ----

  /** A single L1 result, newer than all checks of its node from its vantage. */
  ghost predicate NewestL1(w: World, d: Batch, item: Item) {
    && d.items == [item] && d.stage == "L1" && item.ts.Some? && item.node in w.tables.nodes
    && forall k :: k in w.tables.checks && k.node == item.node && k.vantage == d.vantage ==> k.ts < item.ts.value
  }

  /** Another vantage whose latest check of the node is a passing L1. */
  ghost predicate PassesElsewhere(checks: Checks, id: int, vantage: string, edgeOnly: bool) {
    exists k: Key ::
      k.node == id && k.vantage != vantage && IsLatestPass(checks, k) && (edgeOnly ==> "rf-" <= k.vantage)
  }

  lemma OneNewCheck(parses: string -> bool, w: World, d: Batch, item: Item, w': World)
    requires Valid(w.tables) && NewestL1(w, d, item) && Consumed(parses, w, [d], w')
    ensures var k := ItemKey(d, item);
            && k !in w.tables.checks && k in w'.tables.checks && Tells(w'.tables.checks[k], d, item)
            && w'.tables.checks == w.tables.checks[k := w'.tables.checks[k]]
  {
    hide Consumed;
    var k := ItemKey(d, item);
    var was, now := w.tables.checks, w'.tables.checks;
    OnlyReportStored(parses, w, [d], w', d, item);
    ChecksAreReports(parses, w, [d], w');
    forall l | l in now && l !in was ensures l == k {
      var e :| e in [d] && ToldBy(now[l], e);
    }
  }

  lemma NoTiesWith(t: Tables, c: Check)
    requires Valid(t) && NoTies(t.checks)
    requires forall k :: k in t.checks && k.node == c.node && k.vantage == c.vantage ==> k.ts < c.ts
    ensures NoTies(t.checks[KeyOf(c) := c])
  {
  }

  /** Which latest passes there are after the newest check of its vantage came in. */
  lemma LatestPassesWith(t: Tables, c: Check, k: Key)
    requires Valid(t) && k.node == c.node
    requires forall j :: j in t.checks && j.node == c.node && j.vantage == c.vantage ==> j.ts < c.ts
    ensures IsLatestPass(t.checks[KeyOf(c) := c], k) <==>
            if k.vantage == c.vantage then k == KeyOf(c) && c.stage == "L1" && c.ok else IsLatestPass(t.checks, k)
  {
    var now := t.checks[KeyOf(c) := c];
    assert KeyOf(c) in now && KeyOf(c).vantage == c.vantage;
    if k.vantage != c.vantage {
      forall j: Key | j.vantage == k.vantage ensures (j in now <==> j in t.checks) && (j in now ==> now[j] == t.checks[j]) {
      }
    }
  }

  lemma UnhiddenWith(t: Tables, c: Check)
    requires Valid(t) && c.stage == "L1"
    requires forall k :: k in t.checks && k.node == c.node && k.vantage == c.vantage ==> k.ts < c.ts
    ensures Unhidden(t.checks[KeyOf(c) := c], c.node) <==> c.ok || PassesElsewhere(t.checks, c.node, c.vantage, false)
    ensures EdgePass(t.checks[KeyOf(c) := c], c.node) <==>
            (c.ok && "rf-" <= c.vantage) || PassesElsewhere(t.checks, c.node, c.vantage, true)
  {
    var now := t.checks[KeyOf(c) := c];
    forall k: Key | k.node == c.node
      ensures IsLatestPass(now, k) <==>
              if k.vantage == c.vantage then k == KeyOf(c) && c.ok else IsLatestPass(t.checks, k)
      ensures IsEdge(k.vantage) <==> "rf-" <= k.vantage
    {
      LatestPassesWith(t, c, k);
    }
    hide IsLatestPass;
    if c.ok {
      assert IsLatestPass(now, KeyOf(c)) && KeyOf(c).node == c.node;
    }
  }

  /** What one L1 result does to the row, end to end: if it is the newest of its vantage, the node is
      alive exactly when the probe succeeded or another vantage's latest check is a passing L1, and
      classed rf exactly when one of those vantages is an edge. */
  lemma OneResultDecides(parses: string -> bool, w: World, d: Batch, item: Item, w': World)
    requires Valid(w.tables) && NoTies(w.tables.checks) && NewestL1(w, d, item) && Consumed(parses, w, [d], w')
    ensures item.node in w'.tables.nodes
    ensures var row, id := w'.tables.nodes[item.node], item.node;
            && (row.status == Alive <==> item.ok || PassesElsewhere(w.tables.checks, id, d.vantage, false))
            && (row.bestClass == Rf <==>
                (item.ok && "rf-" <= d.vantage) || PassesElsewhere(w.tables.checks, id, d.vantage, true))
  {
    OneNewCheck(parses, w, d, item, w');
    var c := w'.tables.checks[ItemKey(d, item)];
    NewRowSummarised(parses, w, d, item, w');
    hide Consumed, Summarised, PassesElsewhere, NoTies, Valid, Unhidden, EdgePass;
    NoTiesWith(w.tables, c);
    UnhiddenWith(w.tables, c);
    AliveIff(w'.tables.checks, item.node, w'.tables.nodes[item.node]);
    RfIff(w'.tables.checks, item.node, w'.tables.nodes[item.node]);
  }

  lemma NewRowSummarised(parses: string -> bool, w: World, d: Batch, item: Item, w': World)
    requires Valid(w.tables) && NewestL1(w, d, item) && Consumed(parses, w, [d], w')
    ensures item.node in w'.tables.nodes
    ensures Summarised(w'.tables.checks, item.node, w'.tables.nodes[item.node])
  {
    OneNewCheck(parses, w, d, item, w');
    assert TimesReadable(d);
    ConsumedAccounted(parses, w, [d], w');
    hide Summarised;
    assert RowAccounted(w.tables, w'.tables, item.node);
    var k := ItemKey(d, item);
    assert k in w'.tables.checks && k !in w.tables.checks && k.node == item.node;
  }

  /** And with no other vantage, the result alone decides the whole row. */
  lemma OnlyVantageDecides(parses: string -> bool, w: World, d: Batch, item: Item, w': World)
    requires Valid(w.tables) && NewestL1(w, d, item) && Consumed(parses, w, [d], w')
    requires forall k :: k in w.tables.checks && k.node == item.node ==> k.vantage == d.vantage
    ensures item.node in w'.tables.nodes
    ensures var row := w'.tables.nodes[item.node];
            && row.status == (if item.ok then Alive else Dead)
            && row.bestClass == (if !item.ok then Unclassed else if "rf-" <= d.vantage then Rf else Cloud)
            && row.lastL1Ok == (if item.ok then item.ts else None)
  {
    OneNewCheck(parses, w, d, item, w');
    NewRowSummarised(parses, w, d, item, w');
    var c := w'.tables.checks[ItemKey(d, item)];
    hide Consumed;
    OnlyLatest(w'.tables.checks, c, w'.tables.nodes[item.node]);
  }

  lemma OnlyLatest(checks: Checks, c: Check, row: Row)
    requires Summarised(checks, c.node, row) && KeyOf(c) in checks && checks[KeyOf(c)] == c && c.stage == "L1"
    requires forall k :: k in checks && k.node == c.node && k != KeyOf(c) ==> k.vantage == c.vantage && checks[k].ts < c.ts
    ensures row.status == (if c.ok then Alive else Dead)
    ensures row.bestClass == (if !c.ok then Unclassed else if "rf-" <= c.vantage then Rf else Cloud)
    ensures row.lastL1Ok == (if c.ok then Some(c.ts) else None)
  {
    hide Scan, Describes;
    var latest, order :|
      IsLatest(checks, c.node, latest) && IsOrder(order, latest.Keys) && RowShows(row, Scan(order, latest));
    OnlyInLatest(checks, c, latest);
    assert latest.Keys == set v | v in order;
    ScanDescribes(order, latest, latest.Keys);
    OneDescribed(c, Scan(order, latest));
  }

  lemma OnlyInLatest(checks: Checks, c: Check, latest: Latest)
    requires IsLatest(checks, c.node, latest) && KeyOf(c) in checks && checks[KeyOf(c)] == c
    requires forall k :: k in checks && k.node == c.node && k != KeyOf(c) ==> k.vantage == c.vantage && checks[k].ts < c.ts
    ensures latest == map[c.vantage := c]
  {
    LatestIsNewest(checks, c, latest);
    forall v | v in latest ensures v == c.vantage {
      var k :| k in checks && k.node == c.node && k.vantage == v && latest[v] == checks[k];
    }
    assert c.vantage in latest;
  }

  lemma OneDescribed(c: Check, s: Summary)
    requires var latest := map[c.vantage := c]; Describes(s, latest, latest.Keys) && c.stage == "L1"
    ensures s.status == (if c.ok then Alive else Dead) && s.lastL1Ok == (if c.ok then Some(c.ts) else None)
    ensures s.BestClass() == (if !c.ok then Unclassed else if "rf-" <= c.vantage then Rf else Cloud)
  {
    var latest := map[c.vantage := c];
    assert Passing(latest) * latest.Keys == if c.ok then {c.vantage} else {};
  }

  // ---- from the probe to the stored check ----

  /** The check says what the probe found. */
  predicate TellsOutcome(c: Check, node: int, vantage: string, stage: string, o: FanOut.Outcome, ts: int) {
    && c.node == node && c.vantage == vantage && c.stage == stage && c.ts == ts && c.ok == o.ok
    && c.latencyMs == (if o.latencyMs > 0 then Some(o.latencyMs) else None)
    && c.speedMbps == (if o.speedMbps > 0.0 then Some(o.speedMbps) else None)
    && c.errorCode == (if o.ok then None else if o.code == "" then Some("E_INTERNAL") else Some(o.code))
  }

  /** The whole way of a probe: a worker's fan-out is joined, its results are delivered, and what the one
      probe of slot `i` found is what the check stored for that node says. */
  lemma ProbedIsStored(
      c: FanOut.Config, actions: seq<FanOut.Action>, states: seq<FanOut.State>, i: nat,
      parses: string -> bool, w: World, d: Batch, w': World) returns (k: nat)
    requires FanOut.IsRun(c, actions, states) && states[|actions|].main == FanOut.Joined && i < |c.nodes|
    requires forall r <- states[|actions|].results :: r.Some?
    requires d.items == FanOut.Values(states[|actions|].results) && i < |d.items| && Consumed(parses, w, [d], w')
    requires c.nodes[i] in w.tables.nodes
    requires forall j :: 0 <= j < |c.nodes| && j != i ==> c.nodes[j] != c.nodes[i]
    requires d.items[i].ts.Some? ==> ItemKey(d, d.items[i]) !in w.tables.checks
    ensures FanOut.ProbesSlot(actions, k, i) && forall l :: FanOut.ProbesSlot(actions, l, i) ==> l == k
    ensures exists key :: key in w'.tables.checks &&
              TellsOutcome(w'.tables.checks[key], c.nodes[i], d.vantage, d.stage, actions[k].outcome, actions[k].ts)
  {
    FanOut.JoinedReports(c, actions, states, c.nodes);
    var s := states[|actions|];
    assert FanOut.ProbedOnce(c, actions, s, i);
    k :| FanOut.SlotTold(c, actions, s, k, i) && forall l :: FanOut.ProbesSlot(actions, l, i) ==> l == k;
    var item := d.items[i];
    assert item in d.items && item.node == c.nodes[i];
    forall e <- [d] ensures forall o <- e.items ::
      o.ts.Some? && ((e.vantage, e.stage, o.node, o.ts) == (d.vantage, d.stage, item.node, item.ts) ==> o == item)
    {
      forall o <- e.items ensures o.ts.Some? && (o.node == item.node ==> o == item) {
        var j :| 0 <= j < |d.items| && d.items[j] == o;
        assert FanOut.NodesOf(d.items)[j] == c.nodes[j];
        assert FanOut.IsReport(o, o.node);
      }
    }
    hide Consumed;
    OnlyReportStored(parses, w, [d], w', d, item);
    assert ItemKey(d, item) in w'.tables.checks;
  }
}
