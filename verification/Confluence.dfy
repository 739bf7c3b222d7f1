/** Ingestion does not depend on the order or the number of deliveries. */
module Confluence {
  import opened Basics
  import opened Recompute
  import opened Tables
  import opened Ingest

  ghost function Elements(cs: seq<Check>): set<Check> {
    set c | c in cs
  }

  // ---- what deliveries add up to ----

  /** The table with those of the checks that were refused neither as known nor for want of a node. */
  ghost predicate IsMerge(t: Tables, cs: set<Check>, checks: Checks) {
    && (forall k :: k in t.checks ==> k in checks && checks[k] == t.checks[k])
    && (forall c :: c in cs && c.node in t.nodes ==> KeyOf(c) in checks)
    && (forall k :: k in checks && k !in t.checks ==>
          checks[k] in cs && KeyOf(checks[k]) == k && k.node in t.nodes)
  }

  ghost predicate Touched(was: Checks, now: Checks, id: int) {
    exists k :: k in now && k !in was && k.node == id
  }

  ghost predicate RowAccounted(was: Tables, now: Tables, id: int)
    requires id in was.nodes && id in now.nodes
  {
    if Touched(was.checks, now.checks, id) then
      SameRowBut(was.nodes[id], now.nodes[id]) && Summarised(now.checks, id, now.nodes[id])
    else now.nodes[id] == was.nodes[id]
  }

  ghost predicate RowsAccounted(was: Tables, now: Tables) {
    && now.nodes.Keys == was.nodes.Keys && now.nextId == was.nextId
    && forall id :: id in was.nodes ==> RowAccounted(was, now, id)
  }

  /** The newly stored L0 passes that call for the job `j`. */
  ghost function FreshPasses(parses: string -> bool, t: Tables, checks: Checks, j: seq<int>): set<Key> {
    set k | k in checks && k !in t.checks && [k.node] == j
         && k.stage == "L0" && checks[k].ok && k.node in t.nodes && parses(t.nodes[k.node].identity.uri)
  }

  ghost predicate JobsAccounted(parses: string -> bool, w: World, w': World) {
    forall j: seq<int> ::
      multiset(w'.jobs)[j] == multiset(w.jobs)[j] + |FreshPasses(parses, w.tables, w'.tables.checks, j)|
  }

  ghost predicate Accounted(parses: string -> bool, w: World, cs: set<Check>, w': World) {
    && IsMerge(w.tables, cs, w'.tables.checks) && RowsAccounted(w.tables, w'.tables)
    && JobsAccounted(parses, w, w')
  }

  // ---- one delivery more ----

  predicate Fresh(t: Tables, c: Check) {
    KeyOf(c) !in t.checks && c.node in t.nodes
  }

  lemma MergeStep(t: Tables, cs: set<Check>, mid: Tables, c: Check)
    requires IsMerge(t, cs, mid.checks) && mid.nodes.Keys == t.nodes.Keys
    ensures IsMerge(t, cs + {c}, if Fresh(mid, c) then mid.checks[KeyOf(c) := c] else mid.checks)
  {
  }

  lemma RowsStep(t: Tables, mid: Tables, c: Check, now: Tables)
    requires RowsAccounted(t, mid) && Fresh(mid, c) && KeyOf(c) !in t.checks
    requires Recomputed(mid.(checks := mid.checks[KeyOf(c) := c]), c.node, now)
    ensures RowsAccounted(t, now)
  {
    assert KeyOf(c) in now.checks && KeyOf(c).node == c.node;
    assert now.nodes.Keys == t.nodes.Keys;
    forall id | id in t.nodes ensures RowAccounted(t, now, id) {
      assert RowAccounted(t, mid, id);
      if id != c.node {
        RowElsewhere(t, mid, c, now, id);
      }
    }
  }

  /** Checks of another node matter neither to the row nor to its summary. */
  lemma RowElsewhere(t: Tables, mid: Tables, c: Check, now: Tables, id: int)
    requires id in t.nodes && id in mid.nodes && id in now.nodes && now.nodes[id] == mid.nodes[id]
    requires id != c.node && now.checks == mid.checks[KeyOf(c) := c] && RowAccounted(t, mid, id)
    ensures RowAccounted(t, now, id)
  {
    assert Touched(t.checks, now.checks, id) <==> Touched(t.checks, mid.checks, id) by {
      if k :| k in mid.checks && k !in t.checks && k.node == id {
        assert k in now.checks;
      }
    }
    if Touched(t.checks, mid.checks, id) {
      var latest, order :|
        && IsLatest(mid.checks, id, latest) && IsOrder(order, latest.Keys)
        && RowShows(mid.nodes[id], Scan(order, latest));
      LatestElsewhere(mid.checks, c, id, latest);
    }
  }

  lemma LatestElsewhere(checks: Checks, c: Check, id: int, latest: Latest)
    requires IsLatest(checks, id, latest) && id != c.node
    ensures IsLatest(checks[KeyOf(c) := c], id, latest)
  {
    var now := checks[KeyOf(c) := c];
    forall v | v in latest ensures exists k :: k in now && k.node == id && k.vantage == v && latest[v] == now[k] {
      var k :| k in checks && k.node == id && k.vantage == v && latest[v] == checks[k];
      assert k in now && now[k] == checks[k];
    }
  }

  lemma FreshPassesStep(parses: string -> bool, t: Tables, mid: Checks, c: Check, j: seq<int>)
    requires KeyOf(c) !in mid && KeyOf(c) !in t.checks
    ensures FreshPasses(parses, t, mid[KeyOf(c) := c], j) == FreshPasses(parses, t, mid, j) +
      if c.stage == "L0" && c.ok && Probeable(parses, t, c.node) && j == [c.node] then {KeyOf(c)} else {}
  {
  }

  lemma JobsStep(parses: string -> bool, w: World, mid: World, c: Check, w': World)
    requires JobsAccounted(parses, w, mid) && KeyOf(c) !in mid.tables.checks && KeyOf(c) !in w.tables.checks
    requires w'.tables.checks == mid.tables.checks[KeyOf(c) := c]
    requires w'.jobs == mid.jobs +
      if c.stage == "L0" && c.ok && Probeable(parses, w.tables, c.node) then [[c.node]] else []
    ensures JobsAccounted(parses, w, w')
  {
    forall j: seq<int>
      ensures multiset(w'.jobs)[j] == multiset(w.jobs)[j] + |FreshPasses(parses, w.tables, w'.tables.checks, j)|
    {
      FreshPassesStep(parses, w.tables, mid.tables.checks, c, j);
      assert KeyOf(c) !in FreshPasses(parses, w.tables, mid.tables.checks, j);
    }
  }

  lemma QueuedOne(parses: string -> bool, t: Tables, id: int)
    ensures Queued(parses, t, [id]) == if Probeable(parses, t, id) then [[id]] else []
  {
    assert [id][..0] == [];
    assert ProbeableOf(parses, t, [id]) == if Probeable(parses, t, id) then [id] else [];
  }

  lemma AccountedStep(parses: string -> bool, w: World, cs: set<Check>, mid: World, c: Check, w': World)
    requires Accounted(parses, w, cs, mid) && Took(parses, mid, c, w')
    ensures Accounted(parses, w, cs + {c}, w')
  {
    MergeStep(w.tables, cs, mid.tables, c);
    if Fresh(mid.tables, c) {
      RowsStep(w.tables, mid.tables, c, w'.tables);
      QueuedOne(parses, w'.tables, c.node);
      assert RowAccounted(w.tables, w'.tables, c.node);
      JobsStep(parses, w, mid, c, w');
    }
  }

  lemma {:induction false} AccountedTrace(parses: string -> bool, cs: seq<Check>, trace: seq<World>, n: nat)
    requires IsTrace(parses, cs, trace) && n <= |cs|
    ensures Accounted(parses, trace[0], Elements(cs[..n]), trace[n])
  {
    if n == 0 {
      forall j: seq<int> ensures FreshPasses(parses, trace[0].tables, trace[0].tables.checks, j) == {} {
      }
    } else {
      AccountedTrace(parses, cs, trace, n - 1);
      AccountedStep(parses, trace[0], Elements(cs[..n - 1]), trace[n - 1], cs[n - 1], trace[n]);
      assert Elements(cs[..n]) == Elements(cs[..n - 1]) + {cs[n - 1]};
    }
  }

  lemma DeliveredAccounted(parses: string -> bool, w: World, cs: seq<Check>, w': World)
    requires Delivered(parses, w, cs, w')
    ensures Accounted(parses, w, Elements(cs), w')
  {
    var trace :| IsTrace(parses, cs, trace) && trace[0] == w && trace[|cs|] == w';
    AccountedTrace(parses, cs, trace, |cs|);
    assert cs[..|cs|] == cs;
  }

  // ---- confluence ----

  /** No two results share a key. */
  ghost predicate KeysDistinct(cs: set<Check>) {
    forall c, d :: c in cs && d in cs && KeyOf(c) == KeyOf(d) ==> c == d
  }

  /** No two checks of one node and vantage have one time. */
  ghost predicate NoTies(checks: Checks) {
    forall k, l ::
      k in checks && l in checks && k.node == l.node && k.vantage == l.vantage && checks[k].ts == checks[l].ts
      ==> k == l
  }

  /** The same of the checks already stored and those delivered. */
  ghost predicate TimesDistinct(t: Tables, cs: set<Check>) {
    && NoTies(t.checks)
    && (forall k, c ::
          k in t.checks && c in cs && k.node == c.node && k.vantage == c.vantage && t.checks[k].ts == c.ts
          ==> k == KeyOf(c))
    && (forall c, d ::
          c in cs && d in cs && c.node == d.node && c.vantage == d.vantage && c.ts == d.ts
          ==> KeyOf(c) == KeyOf(d))
  }

  lemma MergeOnce(t: Tables, cs: set<Check>, a: Checks, b: Checks)
    requires KeysDistinct(cs) && IsMerge(t, cs, a) && IsMerge(t, cs, b)
    ensures a == b
  {
    assert forall k :: k in a <==> k in b;
  }

  lemma MergeWithoutTies(t: Tables, cs: set<Check>, checks: Checks)
    requires Valid(t) && TimesDistinct(t, cs) && IsMerge(t, cs, checks)
    ensures NoTies(checks)
  {
  }

  lemma LatestOnce(checks: Checks, id: int, a: Latest, b: Latest)
    requires NoTies(checks) && IsLatest(checks, id, a) && IsLatest(checks, id, b)
    ensures a == b
  {
    assert forall v :: v in a <==> v in b;
    forall v | v in a ensures a[v] == b[v] {
      var k :| k in checks && k.node == id && k.vantage == v && a[v] == checks[k];
      var l :| l in checks && l.node == id && l.vantage == v && b[v] == checks[l];
      assert checks[k].ts == checks[l].ts;
    }
  }

  /** Without ties, the checks decide the aggregate columns. */
  lemma SummaryDecided(checks: Checks, id: int, a: Row, b: Row)
    requires NoTies(checks) && Summarised(checks, id, a) && Summarised(checks, id, b)
    ensures a.status == b.status && a.bestClass == b.bestClass && a.lastL1Ok == b.lastL1Ok
  {
    var m, p :| IsLatest(checks, id, m) && IsOrder(p, m.Keys) && RowShows(a, Scan(p, m));
    var n, q :| IsLatest(checks, id, n) && IsOrder(q, n.Keys) && RowShows(b, Scan(q, n));
    LatestOnce(checks, id, m, n);
    OrderIndependent(m, p, q);
  }

  /** Two worlds that differ at most in scores and in the order of the queued jobs. */
  ghost predicate SameUpToScores(a: World, b: World) {
    && a.tables.checks == b.tables.checks && a.tables.nextId == b.tables.nextId
    && multiset(a.jobs) == multiset(b.jobs)
    && a.tables.nodes.Keys == b.tables.nodes.Keys
    && forall id :: id in a.tables.nodes ==>
         b.tables.nodes[id] == a.tables.nodes[id].(score := b.tables.nodes[id].score)
  }

  lemma RowDecided(t: Tables, a: Tables, b: Tables, id: int)
    requires a.checks == b.checks && NoTies(a.checks) && id in t.nodes && id in a.nodes && id in b.nodes
    requires RowAccounted(t, a, id) && RowAccounted(t, b, id)
    ensures b.nodes[id] == a.nodes[id].(score := b.nodes[id].score)
  {
    if Touched(t.checks, a.checks, id) {
      SummaryDecided(a.checks, id, a.nodes[id], b.nodes[id]);
    }
  }

  lemma AccountedOnce(parses: string -> bool, w: World, cs: set<Check>, a: World, b: World)
    requires Valid(w.tables) && KeysDistinct(cs) && TimesDistinct(w.tables, cs)
    requires Accounted(parses, w, cs, a) && Accounted(parses, w, cs, b)
    ensures SameUpToScores(a, b)
  {
    MergeOnce(w.tables, cs, a.tables.checks, b.tables.checks);
    MergeWithoutTies(w.tables, cs, a.tables.checks);
    forall id | id in w.tables.nodes
      ensures b.tables.nodes[id] == a.tables.nodes[id].(score := b.tables.nodes[id].score)
    {
      RowDecided(w.tables, a.tables, b.tables, id);
    }
    assert forall j: seq<int> :: multiset(a.jobs)[j] == multiset(b.jobs)[j];
  }

  // ---- batches ----

  predicate TimesReadable(batch: Batch) {
    forall item <- batch.items :: item.ts.Some?
  }

  function ChecksOf(batch: Batch): seq<Check>
    requires TimesReadable(batch)
  {
    seq(|batch.items|, i requires 0 <= i < |batch.items| =>
      CheckOf(batch, batch.items[i], batch.items[i].ts.value))
  }

  lemma StampedOnce(batch: Batch, cs: seq<Check>)
    requires TimesReadable(batch) && Stamped(batch, cs)
    ensures cs == ChecksOf(batch)
  {
  }

  /** The checks of the deliveries, as a set. */
  ghost function Offered(deliveries: seq<Batch>): set<Check>
    requires forall b <- deliveries :: TimesReadable(b)
  {
    set b, c | b in deliveries && c in ChecksOf(b) :: c
  }

  lemma {:induction false} FlatOffered(deliveries: seq<Batch>, stamped: seq<seq<Check>>)
    requires (forall b <- deliveries :: TimesReadable(b)) && |stamped| == |deliveries|
    requires forall i :: 0 <= i < |deliveries| ==> Stamped(deliveries[i], stamped[i])
    ensures Elements(Flat(stamped)) == Offered(deliveries)
  {
    if stamped != [] {
      var n := |stamped| - 1;
      FlatOffered(deliveries[..n], stamped[..n]);
      StampedOnce(deliveries[n], stamped[n]);
      var last := ChecksOf(deliveries[n]);
      assert Offered(deliveries) == Offered(deliveries[..n]) + Elements(last) by {
        assert deliveries == deliveries[..n] + [deliveries[n]];
      }
    }
  }

  /** The coordinator consumed these messages, in this order. */
  ghost predicate Consumed(parses: string -> bool, w: World, deliveries: seq<Batch>, w': World) {
    exists stamped: seq<seq<Check>> ::
      && |stamped| == |deliveries|
      && (forall i :: 0 <= i < |deliveries| ==> Stamped(deliveries[i], stamped[i]))
      && Delivered(parses, w, Flat(stamped), w')
  }

  /** Confluence: the same batches, in any order and each delivered any number of times, end in the
      same checks, rows and jobs. */
  lemma Confluent(parses: string -> bool, w: World, a: seq<Batch>, b: seq<Batch>, wa: World, wb: World)
    requires Valid(w.tables) && (forall d <- a :: TimesReadable(d)) && (forall d <- b :: TimesReadable(d))
    requires forall d :: d in a <==> d in b
    requires KeysDistinct(Offered(a)) && TimesDistinct(w.tables, Offered(a))
    requires Consumed(parses, w, a, wa) && Consumed(parses, w, b, wb)
    ensures SameUpToScores(wa, wb)
  {
    assert Offered(a) == Offered(b);
    ConsumedAccounted(parses, w, a, wa);
    ConsumedAccounted(parses, w, b, wb);
    AccountedOnce(parses, w, Offered(a), wa, wb);
  }

  lemma ConsumedAccounted(parses: string -> bool, w: World, deliveries: seq<Batch>, w': World)
    requires (forall d <- deliveries :: TimesReadable(d)) && Consumed(parses, w, deliveries, w')
    ensures Accounted(parses, w, Offered(deliveries), w')
  {
    var stamped: seq<seq<Check>> :|
      && |stamped| == |deliveries|
      && (forall i :: 0 <= i < |deliveries| ==> Stamped(deliveries[i], stamped[i]))
      && Delivered(parses, w, Flat(stamped), w');
    DeliveredAccounted(parses, w, Flat(stamped), w');
    FlatOffered(deliveries, stamped);
  }

  // ---- redelivery ----

  lemma KnownStep(parses: string -> bool, w: World, c: Check, w': World)
    requires !Fresh(w.tables, c)
    ensures Took(parses, w, c, w') <==> w' == w
  {
  }

  lemma {:induction false} KnownTrace(parses: string -> bool, cs: seq<Check>, trace: seq<World>, n: nat)
    requires IsTrace(parses, cs, trace) && n <= |cs|
    requires forall c <- cs :: !Fresh(trace[0].tables, c)
    ensures trace[n] == trace[0]
  {
    if n > 0 {
      KnownTrace(parses, cs, trace, n - 1);
      KnownStep(parses, trace[n - 1], cs[n - 1], trace[n]);
    }
  }

  /** Delivering checks that are all known (or have no node) changes nothing: nothing is counted
      twice, and a row left behind by a crash after InsertCheck is not caught up either. */
  lemma RedeliveryChangesNothing(parses: string -> bool, w: World, cs: seq<Check>, w': World)
    requires forall c <- cs :: !Fresh(w.tables, c)
    ensures Delivered(parses, w, cs, w') <==> w' == w
  {
    if Delivered(parses, w, cs, w') {
      var trace :| IsTrace(parses, cs, trace) && trace[0] == w && trace[|cs|] == w';
      KnownTrace(parses, cs, trace, |cs|);
    }
    if w' == w {
      var trace := seq(|cs| + 1, _ => w);
      forall i | 0 <= i < |cs| ensures Took(parses, trace[i], cs[i], trace[i + 1]) {
        KnownStep(parses, w, cs[i], w);
      }
      assert IsTrace(parses, cs, trace);
    }
  }

  /** Any delivery of a list leaves none of it fresh, so delivering it again changes nothing. */
  lemma DeliveredTwice(parses: string -> bool, w: World, cs: seq<Check>, w': World, w'': World)
    requires Delivered(parses, w, cs, w') && Delivered(parses, w', cs, w'')
    ensures w'' == w'
  {
    DeliveredAccounted(parses, w, cs, w');
    RedeliveryChangesNothing(parses, w', cs, w'');
  }
}
