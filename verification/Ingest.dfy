/** The coordinator's ingestion of worker results: insert the check, rebuild the node row, queue the
    next probe. */
module Ingest {
  import opened Basics
  import opened Recompute
  import opened Tables

  datatype Item = Item(
    node: int, ok: bool, latencyMs: Option<int>, speedMbps: Option<real>, errorCode: Option<string>,
    ts: Option<int>)

  datatype Batch = Batch(jobId: string, vantage: string, stage: string, items: seq<Item>)

  function CheckOf(batch: Batch, item: Item, ts: int): Check {
    Check(item.node, batch.vantage, batch.stage, item.ok, item.latencyMs, item.speedMbps, item.errorCode, ts)
  }

  /** The checks a batch stands for: an unreadable time is replaced by the time of arrival. */
  ghost predicate Stamped(batch: Batch, cs: seq<Check>) {
    |cs| == |batch.items| && forall i :: 0 <= i < |cs| ==> IsStamp(batch, batch.items[i], cs[i])
  }

  predicate IsStamp(batch: Batch, item: Item, c: Check) {
    c == CheckOf(batch, item, if item.ts.Some? then item.ts.value else c.ts)
  }

  /** The check says what the item of the batch says, field by field; its time is the item's if that
      was readable. */
  predicate Tells(c: Check, batch: Batch, item: Item) {
    && c.node == item.node && c.vantage == batch.vantage && c.stage == batch.stage
    && c.ok == item.ok && c.latencyMs == item.latencyMs && c.speedMbps == item.speedMbps
    && c.errorCode == item.errorCode
    && (item.ts.Some? ==> c.ts == item.ts.value)
  }

  /** The key under which an item with a readable time is stored. */
  function ItemKey(batch: Batch, item: Item): Key
    requires item.ts.Some?
  {
    Key(item.node, batch.vantage, batch.stage, Bucket(item.ts.value), item.ts.value)
  }

  lemma StampTells(batch: Batch, item: Item, c: Check)
    requires IsStamp(batch, item, c)
    ensures Tells(c, batch, item)
    ensures item.ts.Some? ==> KeyOf(c) == ItemKey(batch, item)
  {
  }

  // ---- one step each ----

  /** The row carries what a pass over newest checks of the node found. */
  ghost predicate Summarised(checks: Checks, id: int, row: Row) {
    exists latest, order ::
      && IsLatest(checks, id, latest) && IsOrder(order, latest.Keys)
      && RowShows(row, Scan(order, latest))
  }

  predicate RowShows(row: Row, s: Summary) {
    row.status == s.status && row.bestClass == s.BestClass() && row.lastL1Ok == s.lastL1Ok
  }

  /** Two rows that differ at most in the aggregate columns. */
  predicate SameRowBut(a: Row, b: Row) {
    b == a.(status := b.status, bestClass := b.bestClass, score := b.score, lastL1Ok := b.lastL1Ok)
  }

  ghost predicate Recomputed(t: Tables, id: int, t': Tables) {
    if id !in t.nodes then t' == t
    else
      && id in t'.nodes && t' == t.(nodes := t.nodes[id := t'.nodes[id]])
      && SameRowBut(t.nodes[id], t'.nodes[id]) && Summarised(t.checks, id, t'.nodes[id])
  }

  datatype World = World(tables: Tables, jobs: seq<seq<int>>)

  /** A stored URI that parses again: only such a node can be probed. */
  predicate Probeable(parses: string -> bool, t: Tables, id: int) {
    id in t.nodes && parses(t.nodes[id].identity.uri)
  }

  function ProbeableOf(parses: string -> bool, t: Tables, ids: seq<int>): seq<int> {
    if ids == [] then []
    else
      var n := |ids| - 1;
      ProbeableOf(parses, t, ids[..n]) + if Probeable(parses, t, ids[n]) then [ids[n]] else []
  }

  function Queued(parses: string -> bool, t: Tables, ids: seq<int>): seq<seq<int>> {
    var nodes := ProbeableOf(parses, t, ids);
    if nodes == [] then [] else [nodes]
  }

  /** One result taken in: refused for want of a node, known already, or stored and accounted for. */
  ghost predicate Took(parses: string -> bool, w: World, c: Check, w': World) {
    if KeyOf(c) in w.tables.checks || c.node !in w.tables.nodes then w' == w
    else
      var stored := w.tables.(checks := w.tables.checks[KeyOf(c) := c]);
      && Recomputed(stored, c.node, w'.tables)
      && w'.jobs == w.jobs + if c.stage == "L0" && c.ok then Queued(parses, w'.tables, [c.node]) else []
  }

  ghost predicate IsTrace(parses: string -> bool, cs: seq<Check>, trace: seq<World>) {
    && |trace| == |cs| + 1
    && forall i :: 0 <= i < |cs| ==> Took(parses, trace[i], cs[i], trace[i + 1])
  }

  /** The checks taken in one after the other lead from `w` to `w'`. */
  ghost predicate Delivered(parses: string -> bool, w: World, cs: seq<Check>, w': World) {
    exists trace :: IsTrace(parses, cs, trace) && trace[0] == w && trace[|cs|] == w'
  }

  lemma DeliveredNothing(parses: string -> bool, w: World)
    ensures Delivered(parses, w, [], w)
  {
    assert IsTrace(parses, [], [w]);
  }

  lemma DeliveredConcat(
      parses: string -> bool, w: World, a: seq<Check>, mid: World, b: seq<Check>, w': World)
    requires Delivered(parses, w, a, mid) && Delivered(parses, mid, b, w')
    ensures Delivered(parses, w, a + b, w')
  {
    hide Took;
    var p :| IsTrace(parses, a, p) && p[0] == w && p[|a|] == mid;
    var q :| IsTrace(parses, b, q) && q[0] == mid && q[|b|] == w';
    var trace := p + q[1..];
    assert forall i :: 0 <= i <= |a| ==> trace[i] == p[i];
    assert forall i :: 0 <= i <= |b| ==> trace[|a| + i] == q[i];
    forall i | 0 <= i < |a + b| ensures Took(parses, trace[i], (a + b)[i], trace[i + 1]) {
      if i < |a| {
        assert Took(parses, p[i], a[i], p[i + 1]);
      } else {
        var j := i - |a|;
        assert Took(parses, q[j], b[j], q[j + 1]) && trace[|a| + (j + 1)] == q[j + 1];
      }
    }
    assert IsTrace(parses, a + b, trace);
  }

  lemma DeliveredMore(parses: string -> bool, w: World, cs: seq<Check>, mid: World, c: Check, w': World)
    requires Delivered(parses, w, cs, mid) && Took(parses, mid, c, w')
    ensures Delivered(parses, w, cs + [c], w')
  {
    assert IsTrace(parses, [c], [mid, w']);
    DeliveredConcat(parses, w, cs, mid, [c], w');
  }

  class Coordinator {
    const store: Store
    const parses: string -> bool
    var jobs: seq<seq<int>>

    ghost function View(): World
      reads this, store
    {
      World(store.View(), jobs)
    }

    constructor (store: Store, parses: string -> bool)
      ensures this.store == store && this.parses == parses && jobs == []
    {
      this.store, this.parses, jobs := store, parses, [];
    }

    /** The score weighs the history of an arbitrary vantage, so it is an arbitrary number here. */
    method RecomputeNode(id: int)
      requires Valid(store.View())
      modifies store
      ensures Valid(store.View()) && Recomputed(old(store.View()), id, store.View())
    {
      if id !in store.nodes {
        return;
      }
      var latest := store.LatestByVantage(id);
      var s := Summarise(latest);
      var score: real := *;
      store.UpdateNodeAggregate(id, s.status, s.BestClass(), score, s.lastL1Ok);
      ghost var order :| IsOrder(order, latest.Keys) && s == Scan(order, latest);
      assert RowShows(store.nodes[id], Scan(order, latest));
    }

    method EnqueueL1(ids: seq<int>)
      modifies this`jobs
      ensures jobs == old(jobs) + Queued(parses, store.View(), ids)
    {
      var nodes: seq<int> := [];
      for i := 0 to |ids|
        invariant jobs == old(jobs) && nodes == ProbeableOf(parses, store.View(), ids[..i])
      {
        assert ids[..i + 1][..i] == ids[..i];
        if ids[i] in store.nodes && parses(store.nodes[ids[i]].identity.uri) {
          nodes := nodes + [ids[i]];
        }
      }
      assert ids[..|ids|] == ids;
      if nodes == [] {
        return;
      }
      jobs := jobs + [nodes];
    }

    method IngestResult(c: Check)
      requires Valid(store.View())
      modifies this`jobs, store
      ensures Valid(store.View()) && Took(parses, old(View()), c, View())
    {
      var r := store.InsertCheck(c);
      if r.Err? || !r.value {
        return;
      }
      RecomputeNode(c.node);
      if c.stage == "L0" && c.ok {
        EnqueueL1([c.node]);
      }
    }

    method IngestResults(batch: Batch) returns (ghost cs: seq<Check>)
      requires Valid(store.View())
      modifies this`jobs, store
      ensures Valid(store.View())
      ensures Stamped(batch, cs) && Delivered(parses, old(View()), cs, View())
    {
      cs := [];
      DeliveredNothing(parses, View());
      for i := 0 to |batch.items|
        invariant |cs| == i && Valid(store.View()) && Delivered(parses, old(View()), cs, View())
        invariant forall j :: 0 <= j < i ==> IsStamp(batch, batch.items[j], cs[j])
      {
        var item := batch.items[i];
        var arrival: int := *;
        var c := CheckOf(batch, item, if item.ts.Some? then item.ts.value else arrival);
        ghost var stamped := cs + [c];
        assert forall j :: 0 <= j < i + 1 ==> IsStamp(batch, batch.items[j], stamped[j]);
        ghost var mid := View();
        IngestResult(c);
        DeliveredMore(parses, old(View()), cs, mid, c, View());
        cs := stamped;
      }
    }

    /** A fetched list of result messages, taken in one after the other. */
    method ConsumeResults(batches: seq<Batch>) returns (ghost stamped: seq<seq<Check>>)
      requires Valid(store.View())
      modifies this`jobs, store
      ensures Valid(store.View()) && |stamped| == |batches|
      ensures forall i :: 0 <= i < |batches| ==> Stamped(batches[i], stamped[i])
      ensures Delivered(parses, old(View()), Flat(stamped), View())
    {
      stamped := [];
      DeliveredNothing(parses, View());
      for i := 0 to |batches|
        invariant |stamped| == i && Valid(store.View())
        invariant forall j :: 0 <= j < i ==> Stamped(batches[j], stamped[j])
        invariant Delivered(parses, old(View()), Flat(stamped), View())
      {
        ghost var mid := View();
        ghost var cs := IngestResults(batches[i]);
        DeliveredConcat(parses, old(View()), Flat(stamped), mid, cs, View());
        assert (stamped + [cs])[..i] == stamped;
        stamped := stamped + [cs];
      }
    }
  }

  ghost function Flat(stamped: seq<seq<Check>>): seq<Check> {
    if stamped == [] then [] else Flat(stamped[..|stamped| - 1]) + stamped[|stamped| - 1]
  }
}
