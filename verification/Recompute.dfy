/** The aggregate of a node: one pass over the newest check of each vantage, in whatever order the
    map yields them. */
module Recompute {
  import opened Basics

  datatype Status = Unknown | Alive | Dead

  datatype Class = Unclassed | Cloud | Rf

  datatype Check = Check(
    node: int, vantage: string, stage: string, ok: bool,
    latencyMs: Option<int>, speedMbps: Option<real>, errorCode: Option<string>, ts: int)

  predicate IsEdge(vantage: string) {
    |vantage| >= 3 && vantage[..3] == "rf-"
  }

  /** A liveness probe that passed; validator checks, stored under stage "VAL", are not. */
  predicate PassedL1(c: Check) {
    c.stage == "L1" && c.ok
  }

  predicate PassedL2(c: Check) {
    c.stage == "L2" && c.ok
  }

  type Latest = map<string, Check>

  function Passing(latest: Latest): set<string> {
    set v | v in latest && PassedL1(latest[v])
  }

  // ---- the pass ----

  datatype Summary = Summary(
    status: Status, lastL1Ok: Option<int>, latency: int, speed: real, rf: bool, cloud: bool)
  {
    function BestClass(): Class {
      if rf then Rf else if cloud then Cloud else Unclassed
    }
  }

  const START := Summary(Dead, None, 0, 0.0, false, false)

  function Look(s: Summary, vantage: string, c: Check): Summary {
    var newer := s.lastL1Ok.None? || c.ts > s.lastL1Ok.value;
    if PassedL1(c) then
      Summary(
        Alive,
        if newer then Some(c.ts) else s.lastL1Ok,
        if newer && c.latencyMs.Some? then c.latencyMs.value else s.latency,
        s.speed,
        s.rf || IsEdge(vantage),
        s.cloud || !IsEdge(vantage))
    else if PassedL2(c) && c.speedMbps.Some? && c.speedMbps.value > s.speed then
      s.(speed := c.speedMbps.value)
    else s
  }

  function Scan(order: seq<string>, latest: Latest): Summary
    requires forall v <- order :: v in latest
  {
    if order == [] then START
    else
      var v := order[|order| - 1];
      Look(Scan(order[..|order| - 1], latest), v, latest[v])
  }

  /** Each vantage once, in some order. */
  ghost predicate IsOrder(order: seq<string>, vantages: set<string>) {
    && (forall i, j :: 0 <= i < j < |order| ==> order[i] != order[j])
    && (forall v :: v in order <==> v in vantages)
  }

  method Summarise(latest: Latest) returns (s: Summary)
    ensures exists order :: IsOrder(order, latest.Keys) && s == Scan(order, latest)
  {
    var status, lastL1Ok: Option<int>, bestLatency, bestSpeed, rfOk, cloudOk := Dead, None, 0, 0.0, false, false;
    var remaining := latest.Keys;
    ghost var order: seq<string> := [];
    while remaining != {}
      invariant remaining <= latest.Keys && IsOrder(order, latest.Keys - remaining)
      invariant Scan(order, latest) == Summary(status, lastL1Ok, bestLatency, bestSpeed, rfOk, cloudOk)
    {
      var vantage :| vantage in remaining;
      var c := latest[vantage];
      if c.stage == "L1" && c.ok {
        if lastL1Ok.None? || c.ts > lastL1Ok.value {
          lastL1Ok := Some(c.ts);
          if c.latencyMs.Some? {
            bestLatency := c.latencyMs.value;
          }
        }
        if IsEdge(vantage) {
          rfOk := true;
        } else {
          cloudOk := true;
        }
        status := Alive;
      }
      if c.stage == "L2" && c.ok {
        if c.speedMbps.Some? && c.speedMbps.value > bestSpeed {
          bestSpeed := c.speedMbps.value;
        }
      }
      remaining := remaining - {vantage};
      assert (order + [vantage])[..|order|] == order;
      order := order + [vantage];
    }
    s := Summary(status, lastL1Ok, bestLatency, bestSpeed, rfOk, cloudOk);
  }

  // ---- what the pass finds ----

  /** A summary, but for the latency, described without an order. */
  ghost predicate Describes(s: Summary, latest: Latest, seen: set<string>)
    requires seen <= latest.Keys
  {
    var passed := Passing(latest) * seen;
    && (s.status == if passed == {} then Dead else Alive)
    && (s.rf <==> exists v :: v in passed && IsEdge(v))
    && (s.cloud <==> exists v :: v in passed && !IsEdge(v))
    && (s.lastL1Ok.None? <==> passed == {})
    && (s.lastL1Ok.Some? ==>
          && (exists v :: v in passed && latest[v].ts == s.lastL1Ok.value)
          && (forall v :: v in passed ==> latest[v].ts <= s.lastL1Ok.value))
    && s.speed >= 0.0
    && (forall v :: v in seen && PassedL2(latest[v]) && latest[v].speedMbps.Some? ==>
          latest[v].speedMbps.value <= s.speed)
    && (s.speed == 0.0 ||
        exists v :: v in seen && PassedL2(latest[v]) && latest[v].speedMbps == Some(s.speed))
  }

  lemma {:induction false} ScanDescribes(order: seq<string>, latest: Latest, seen: set<string>)
    requires (forall v <- order :: v in latest) && seen == set v | v in order
    ensures Describes(Scan(order, latest), latest, seen)
  {
    if order != [] {
      var n := |order| - 1;
      var v := order[n];
      var before := set u | u in order[..n];
      assert seen == before + {v};
      ScanDescribes(order[..n], latest, before);
      LookDescribes(Scan(order[..n], latest), latest, before, v);
    }
  }

  lemma LookDescribes(s: Summary, latest: Latest, before: set<string>, v: string)
    requires before <= latest.Keys && v in latest && Describes(s, latest, before)
    ensures Describes(Look(s, v, latest[v]), latest, before + {v})
  {
    var t := Look(s, v, latest[v]);
    var was, now := Passing(latest) * before, Passing(latest) * (before + {v});
    if PassedL1(latest[v]) {
      assert now == was + {v};
      assert t.lastL1Ok.value == latest[v].ts || t.lastL1Ok == s.lastL1Ok;
    } else {
      assert now == was;
    }
  }

  lemma DescribedOnce(latest: Latest, s: Summary, t: Summary)
    requires Describes(s, latest, latest.Keys) && Describes(t, latest, latest.Keys)
    ensures s == t.(latency := s.latency)
  {
    assert s.lastL1Ok == t.lastL1Ok by {
      if s.lastL1Ok.Some? {
        assert s.lastL1Ok.value <= t.lastL1Ok.value <= s.lastL1Ok.value;
      }
    }
  }

  /** Every order of the vantage map gives the same status, class, last-L1-ok time and speed. */
  lemma OrderIndependent(latest: Latest, a: seq<string>, b: seq<string>)
    requires IsOrder(a, latest.Keys) && IsOrder(b, latest.Keys)
    ensures Scan(a, latest) == Scan(b, latest).(latency := Scan(a, latest).latency)
  {
    assert latest.Keys == (set v | v in a) == set v | v in b;
    ScanDescribes(a, latest, latest.Keys);
    ScanDescribes(b, latest, latest.Keys);
    DescribedOnce(latest, Scan(a, latest), Scan(b, latest));
  }

  // ---- the latency ----

  /** The newest passing checks. */
  function Newest(latest: Latest): set<string> {
    set v | v in Passing(latest) && forall u :: u in Passing(latest) ==> latest[u].ts <= latest[v].ts
  }

  /** The guard for a latency that does not depend on the order: the newest passing checks carry
      one latency, or no passing check carries any but zero. */
  ghost predicate LatencySettled(latest: Latest) {
    || (exists l :: forall v :: v in Newest(latest) ==> latest[v].latencyMs == Some(l))
    || (forall v :: v in Passing(latest) ==> latest[v].latencyMs == None || latest[v].latencyMs == Some(0))
  }

  lemma {:induction false} NewestExists(latest: Latest, among: set<string>) returns (v: string)
    requires among <= Passing(latest) && among != {}
    ensures v in among && forall u :: u in among ==> latest[u].ts <= latest[v].ts
    decreases among
  {
    v :| v in among;
    if among != {v} {
      var w := NewestExists(latest, among - {v});
      if latest[w].ts > latest[v].ts {
        v := w;
      }
    }
  }

  predicate Topped(s: Summary, latest: Latest) {
    s.lastL1Ok.Some? && forall v :: v in Passing(latest) ==> latest[v].ts <= s.lastL1Ok.value
  }

  lemma NewestTops(order: seq<string>, latest: Latest, v: string)
    requires (forall u <- order :: u in latest) && v in order && v in Newest(latest)
    ensures Topped(Scan(order, latest), latest)
  {
    var seen := set u | u in order;
    ScanDescribes(order, latest, seen);
    assert v in Passing(latest) * seen;
  }

  /** Once a newest passing check has been seen, the latency no longer changes. */
  lemma {:induction false} LatencyFrozen(a: seq<string>, b: seq<string>, latest: Latest)
    requires (forall v <- a :: v in latest) && (forall v <- b :: v in latest)
    requires Topped(Scan(a, latest), latest)
    ensures Topped(Scan(a + b, latest), latest) && Scan(a + b, latest).latency == Scan(a, latest).latency
  {
    if b == [] {
      assert a + b == a;
    } else {
      var n := |b| - 1;
      assert (a + b)[..|a| + n] == a + b[..n];
      LatencyFrozen(a, b[..n], latest);
    }
  }

  lemma {:induction false} LatencyOfNewest(order: seq<string>, latest: Latest, l: int)
    requires forall v <- order :: v in latest
    requires exists v :: v in order && v in Newest(latest)
    requires forall v :: v in Newest(latest) ==> latest[v].latencyMs == Some(l)
    ensures Scan(order, latest).latency == l
  {
    var n := |order| - 1;
    var before := order[..n];
    assert order == before + [order[n]];
    if v :| v in before && v in Newest(latest) {
      LatencyOfNewest(before, latest, l);
      NewestTops(before, latest, v);
      LatencyFrozen(before, [order[n]], latest);
    } else {
      ScanDescribes(before, latest, set v | v in before);
    }
  }

  lemma {:induction false} LatencyStaysZero(order: seq<string>, latest: Latest)
    requires forall v <- order :: v in latest
    requires forall v :: v in Passing(latest) ==> latest[v].latencyMs == None || latest[v].latencyMs == Some(0)
    ensures Scan(order, latest).latency == 0
  {
    if order != [] {
      LatencyStaysZero(order[..|order| - 1], latest);
    }
  }

  lemma SettledLatency(latest: Latest, a: seq<string>, b: seq<string>)
    requires IsOrder(a, latest.Keys) && IsOrder(b, latest.Keys) && LatencySettled(latest)
    ensures Scan(a, latest).latency == Scan(b, latest).latency
  {
    if forall v :: v in Passing(latest) ==> latest[v].latencyMs == None || latest[v].latencyMs == Some(0) {
      LatencyStaysZero(a, latest);
      LatencyStaysZero(b, latest);
    } else {
      var l :| forall v :: v in Newest(latest) ==> latest[v].latencyMs == Some(l);
      var v := NewestExists(latest, Passing(latest));
      assert v in Newest(latest) && v in a && v in b;
      LatencyOfNewest(a, latest, l);
      LatencyOfNewest(b, latest, l);
    }
  }

  lemma {:induction false} Enumerate(vantages: set<string>) returns (order: seq<string>)
    ensures IsOrder(order, vantages)
    decreases vantages
  {
    order := [];
    if vantages != {} {
      var v :| v in vantages;
      var rest := Enumerate(vantages - {v});
      order := [v] + rest;
    }
  }

  lemma ScanOne(v: string, latest: Latest)
    requires v in latest
    ensures Scan([v], latest) == Look(START, v, latest[v])
  {
    assert [v][..0] == [];
  }

  lemma ScanTwo(v: string, w: string, latest: Latest)
    requires v in latest && w in latest
    ensures Scan([v, w], latest) == Look(Look(START, v, latest[v]), w, latest[w])
  {
    assert [v, w][..1] == [v];
    ScanOne(v, latest);
  }

  /** An order that starts with a newest passing check ends with its latency. */
  lemma NewestFirst(v: string, latest: Latest) returns (order: seq<string>)
    requires v in Newest(latest)
    ensures IsOrder(order, latest.Keys)
    ensures Scan(order, latest).latency == if latest[v].latencyMs.Some? then latest[v].latencyMs.value else 0
  {
    var rest := Enumerate(latest.Keys - {v});
    order := [v] + rest;
    ScanOne(v, latest);
    LatencyFrozen([v], rest, latest);
  }

  /** An order that starts with `w` and goes on with a newest check without a latency ends with
      the latency of `w`. */
  lemma OlderFirst(w: string, v: string, latest: Latest) returns (order: seq<string>)
    requires v in Newest(latest) && latest[v].latencyMs == None && w in Passing(latest)
    requires latest[w].latencyMs.Some?
    ensures IsOrder(order, latest.Keys) && Scan(order, latest).latency == latest[w].latencyMs.value
  {
    var rest := Enumerate(latest.Keys - {v, w});
    order := [w, v] + rest;
    ScanTwo(w, v, latest);
    assert v in [w, v];
    LatencyFrozen([w, v], rest, latest);
  }

  lemma UnsettledLatency(latest: Latest) returns (a: seq<string>, b: seq<string>)
    requires !LatencySettled(latest)
    ensures IsOrder(a, latest.Keys) && IsOrder(b, latest.Keys)
    ensures Scan(a, latest).latency != Scan(b, latest).latency
  {
    var w :| w in Passing(latest) && latest[w].latencyMs != None && latest[w].latencyMs != Some(0);
    var v := NewestExists(latest, Passing(latest));
    assert v in Newest(latest);
    if u :| u in Newest(latest) && latest[u].latencyMs == None {
      a := NewestFirst(u, latest);
      b := OlderFirst(w, u, latest);
    } else {
      var l := latest[v].latencyMs.value;
      var u :| u in Newest(latest) && latest[u].latencyMs != Some(l);
      a := NewestFirst(v, latest);
      b := NewestFirst(u, latest);
    }
  }

  ghost predicate SameLatency(latest: Latest, a: seq<string>, b: seq<string>) {
    IsOrder(a, latest.Keys) && IsOrder(b, latest.Keys) ==>
      Scan(a, latest).latency == Scan(b, latest).latency
  }

  /** The latency is the same for every order of the map exactly when it is settled. */
  lemma LatencyIffSettled(latest: Latest)
    ensures (forall a, b :: SameLatency(latest, a, b)) <==> LatencySettled(latest)
  {
    if LatencySettled(latest) {
      forall a, b ensures SameLatency(latest, a, b) {
        if IsOrder(a, latest.Keys) && IsOrder(b, latest.Keys) {
          SettledLatency(latest, a, b);
        }
      }
    } else {
      var a, b := UnsettledLatency(latest);
      assert !SameLatency(latest, a, b);
    }
  }
}
