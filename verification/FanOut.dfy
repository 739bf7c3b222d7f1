/** The worker's fan-out over the nodes of a job: a semaphore channel bounds the goroutines, each
    goroutine writes its own slot, the main routine joins on a done channel. One step is one
    channel operation or one slot written, in any interleaving. */
module FanOut {
  import opened Basics
  import opened Ingest

  // ---- one probe, as reported ----

  datatype Outcome = Outcome(ok: bool, latencyMs: int, speedMbps: real, code: string)

  function ReportOf(node: int, o: Outcome, ts: int): Item {
    Item(
      node, o.ok,
      if o.latencyMs > 0 then Some(o.latencyMs) else None,
      if o.speedMbps > 0.0 then Some(o.speedMbps) else None,
      if o.ok then None else Some(if o.code == "" then "E_INTERNAL" else o.code),
      Some(ts))
  }

  /** What every reported item satisfies: its node, a readable time, an error code exactly on failure. */
  predicate IsReport(item: Item, node: int) {
    && item.node == node && item.ts.Some? && (item.errorCode.None? <==> item.ok)
    && (item.latencyMs.Some? ==> item.latencyMs.value > 0)
    && (item.speedMbps.Some? ==> item.speedMbps.value > 0.0)
    && (item.errorCode.Some? ==> item.errorCode.value != "")
  }

  /** The item reports this outcome of a probe of the node at this time. */
  predicate ReportsOutcome(item: Item, node: int, o: Outcome, ts: int) {
    && item.node == node && item.ok == o.ok && item.ts == Some(ts)
    && (item.latencyMs.Some? <==> o.latencyMs > 0) && (o.latencyMs > 0 ==> item.latencyMs == Some(o.latencyMs))
    && (item.speedMbps.Some? <==> o.speedMbps > 0.0) && (o.speedMbps > 0.0 ==> item.speedMbps == Some(o.speedMbps))
    && (item.errorCode.None? <==> o.ok)
    && (!o.ok && o.code != "" ==> item.errorCode == Some(o.code))
    && (!o.ok && o.code == "" ==> item.errorCode == Some("E_INTERNAL"))
  }

  // ---- the shuffle ----

  /** Swaps from the back, each with an arbitrary earlier element. */
  method Shuffle(nodes: array<int>)
    modifies nodes
    ensures multiset(nodes[..]) == multiset(old(nodes[..]))
  {
    var i := nodes.Length - 1;
    while i > 0
      invariant i < nodes.Length && multiset(nodes[..]) == multiset(old(nodes[..]))
    {
      var j :| 0 <= j <= i;
      nodes[i], nodes[j] := nodes[j], nodes[i];
      i := i - 1;
    }
  }

  // ---- the machine ----

  datatype Phase = Idle | Probing | Written | Freed | Finished

  datatype Main = Launching | Holding | Receiving | Joined

  datatype State = State(
    main: Main, launched: nat, received: nat,
    phases: seq<Phase>, results: seq<Option<Item>>,
    tokens: nat /* in the semaphore */, done: nat /* in the done channel */)

  datatype Config = Config(nodes: seq<int>, concurrency: nat)

  function Initial(c: Config): State {
    State(Launching, 0, 0, seq(|c.nodes|, _ => Idle), seq(|c.nodes|, _ => None), 0, 0)
  }

  datatype Action =
    | Acquire
    | Launch
    | StopLaunching
    | Probe(i: nat, outcome: Outcome, ts: int)
    | Free(i: nat)
    | Finish(i: nat)
    | Receive
    | Join

  predicate Enabled(c: Config, s: State, a: Action) {
    match a
    case Acquire => s.main == Launching && s.launched < |c.nodes| && s.tokens < c.concurrency
    case Launch => s.main == Holding && s.launched < |s.phases|
    case StopLaunching => s.main == Launching && s.launched == |c.nodes|
    case Probe(i, _, _) => i < |s.phases| && s.phases[i] == Probing && i < |c.nodes| && i < |s.results|
    case Free(i) => i < |s.phases| && s.phases[i] == Written && s.tokens > 0
    case Finish(i) => i < |s.phases| && s.phases[i] == Freed && s.done < |c.nodes|
    case Receive => s.main == Receiving && s.received < |c.nodes| && s.done > 0
    case Join => s.main == Receiving && s.received == |c.nodes|
  }

  function After(c: Config, s: State, a: Action): State
    requires Enabled(c, s, a)
  {
    match a
    case Acquire => s.(main := Holding, tokens := s.tokens + 1)
    case Launch => s.(main := Launching, launched := s.launched + 1, phases := s.phases[s.launched := Probing])
    case StopLaunching => s.(main := Receiving)
    case Probe(i, outcome, ts) =>
      s.(phases := s.phases[i := Written], results := s.results[i := Some(ReportOf(c.nodes[i], outcome, ts))])
    case Free(i) => s.(phases := s.phases[i := Freed], tokens := s.tokens - 1)
    case Finish(i) => s.(phases := s.phases[i := Finished], done := s.done + 1)
    case Receive => s.(received := s.received + 1, done := s.done - 1)
    case Join => s.(main := Joined)
  }

  /** The actions, one after the other, from the start of the fan-out. */
  ghost predicate IsRun(c: Config, actions: seq<Action>, states: seq<State>) {
    && |states| == |actions| + 1 && states[0] == Initial(c)
    && forall k :: 0 <= k < |actions| ==>
         Enabled(c, states[k], actions[k]) && states[k + 1] == After(c, states[k], actions[k])
  }

  // ---- the invariant ----

  function Indices(phases: seq<Phase>, those: set<Phase>): set<int> {
    set i | 0 <= i < |phases| && phases[i] in those
  }

  const ACTIVE := {Probing, Written}

  /** Each slot is filled by its own goroutine, with the report of its own node. */
  ghost predicate Slots(c: Config, s: State) {
    && |s.phases| == |s.results| == |c.nodes|
    && forall i :: 0 <= i < |s.phases| ==>
         if s.phases[i] in {Idle, Probing} then s.results[i] == None
         else s.results[i].Some? && IsReport(s.results[i].value, c.nodes[i])
  }

  ghost predicate Progress(c: Config, s: State) {
    && |s.phases| == |c.nodes| && s.launched <= |c.nodes| && s.received <= |c.nodes|
    && (forall i :: 0 <= i < |s.phases| ==> (s.phases[i] == Idle <==> i >= s.launched))
    && (s.main == Holding ==> s.launched < |c.nodes|)
    && (s.main.Receiving? || s.main.Joined? ==> s.launched == |c.nodes|)
    && (s.main == Joined ==> s.received == |c.nodes|)
  }

  /** The tokens out are those of the running goroutines, and of the main routine about to launch
      one; the finished goroutines are received or wait in the done channel. */
  ghost predicate Counts(c: Config, s: State) {
    && s.tokens == |Indices(s.phases, ACTIVE)| + (if s.main == Holding then 1 else 0)
    && s.tokens <= c.concurrency
    && s.done + s.received == |Indices(s.phases, {Finished})|
  }

  ghost predicate Inv(c: Config, s: State) {
    Slots(c, s) && Progress(c, s) && Counts(c, s)
  }

  /** How the two counts change when goroutine `i` moves on to phase `p`. */
  lemma PhaseMoves(phases: seq<Phase>, i: nat, p: Phase)
    requires i < |phases|
    ensures |Indices(phases[i := p], ACTIVE)| ==
            |Indices(phases, ACTIVE)| - (if phases[i] in ACTIVE then 1 else 0) + (if p in ACTIVE then 1 else 0)
    ensures |Indices(phases[i := p], {Finished})| ==
            |Indices(phases, {Finished})| - (if phases[i] == Finished then 1 else 0) + (if p == Finished then 1 else 0)
  {
    IndicesUpdate(phases, ACTIVE, i, p);
    IndicesUpdate(phases, {Finished}, i, p);
  }

  lemma IndicesUpdate(phases: seq<Phase>, those: set<Phase>, i: nat, p: Phase)
    requires i < |phases|
    ensures |Indices(phases[i := p], those)| ==
            |Indices(phases, those)| - (if phases[i] in those then 1 else 0) + (if p in those then 1 else 0)
  {
    var others := Indices(phases, those) - {i};
    assert Indices(phases, those) == if phases[i] in those then others + {i} else others;
    assert Indices(phases[i := p], those) == if p in those then others + {i} else others;
  }

  lemma NoneActive(n: nat)
    ensures Indices(seq(n, _ => Idle), ACTIVE) == {} == Indices(seq(n, _ => Idle), {Finished})
  {
  }

  lemma StepKeepsCounts(c: Config, s: State, a: Action)
    requires Progress(c, s) && Counts(c, s) && Enabled(c, s, a)
    ensures Counts(c, After(c, s, a))
  {
    match a
    case Launch => PhaseMoves(s.phases, s.launched, Probing);
    case Probe(i, _, _) => PhaseMoves(s.phases, i, Written);
    case Free(i) => PhaseMoves(s.phases, i, Freed);
    case Finish(i) => PhaseMoves(s.phases, i, Finished);
    case _ =>
  }

  lemma StepKeepsInv(c: Config, s: State, a: Action)
    requires Inv(c, s) && Enabled(c, s, a)
    ensures Inv(c, After(c, s, a))
  {
    StepKeepsCounts(c, s, a);
  }

  lemma {:induction false} RunKeepsInv(c: Config, actions: seq<Action>, states: seq<State>, k: nat)
    requires IsRun(c, actions, states) && k <= |actions|
    ensures Inv(c, states[k])
  {
    if k == 0 {
      NoneActive(|c.nodes|);
    } else {
      RunKeepsInv(c, actions, states, k - 1);
      StepKeepsInv(c, states[k - 1], actions[k - 1]);
    }
  }

  // ---- bounded, never stuck, finite ----

  /** In every state of every run, at most `concurrency` probes are under way. */
  lemma Bounded(c: Config, actions: seq<Action>, states: seq<State>, k: nat)
    requires IsRun(c, actions, states) && k <= |actions|
    ensures |Indices(states[k].phases, {Probing})| <= c.concurrency
  {
    RunKeepsInv(c, actions, states, k);
    SubsetSize(Indices(states[k].phases, {Probing}), Indices(states[k].phases, ACTIVE));
  }

  ghost predicate CanStep(c: Config, s: State) {
    exists a :: Enabled(c, s, a)
  }

  lemma FinishedSize(c: Config, s: State)
    requires Inv(c, s)
    ensures s.done + s.received <= |c.nodes|
    ensures s.done + s.received == |c.nodes| <==> forall i :: 0 <= i < |s.phases| ==> s.phases[i] == Finished
  {
    var all := Range(0, |c.nodes|);
    SubsetSize(Indices(s.phases, {Finished}), all);
    if forall i :: 0 <= i < |s.phases| ==> s.phases[i] == Finished {
      assert Indices(s.phases, {Finished}) == all;
    }
    if Indices(s.phases, {Finished}) == all {
      forall i | 0 <= i < |s.phases| ensures s.phases[i] == Finished {
        assert i in all;
      }
    }
  }

  lemma GoroutineProgress(c: Config, s: State, i: nat)
    requires Inv(c, s) && i < |s.phases| && s.phases[i] !in {Idle, Finished}
    ensures CanStep(c, s)
  {
    match s.phases[i]
    case Probing =>
      assert Enabled(c, s, Probe(i, Outcome(false, 0, 0.0, ""), 0));
    case Written =>
      assert i in Indices(s.phases, ACTIVE);
      assert Enabled(c, s, Free(i));
    case Freed =>
      FinishedSize(c, s);
      assert Enabled(c, s, Finish(i));
  }

  lemma MainProgress(c: Config, s: State)
    requires Inv(c, s) && s.main != Joined && (c.concurrency >= 1 || c.nodes == [])
    requires forall i :: 0 <= i < |s.phases| ==> s.phases[i] in {Idle, Finished}
    ensures CanStep(c, s)
  {
    assert Indices(s.phases, ACTIVE) == {};
    match s.main
    case Launching =>
      assert Enabled(c, s, if s.launched == |c.nodes| then StopLaunching else Acquire);
    case Holding =>
      assert Enabled(c, s, Launch);
    case Receiving =>
      FinishedSize(c, s);
      assert Enabled(c, s, if s.received == |c.nodes| then Join else Receive);
  }

  lemma NeverStuck(c: Config, s: State)
    requires Inv(c, s) && (c.concurrency >= 1 || c.nodes == [])
    ensures s.main == Joined || CanStep(c, s)
  {
    if s.main != Joined {
      if i: nat :| i < |s.phases| && s.phases[i] !in {Idle, Finished} {
        GoroutineProgress(c, s, i);
      } else {
        MainProgress(c, s);
      }
    }
  }

  ghost predicate DeadlockFree(c: Config) {
    forall actions: seq<Action>, states: seq<State> :: IsRun(c, actions, states) ==>
      states[|actions|].main == Joined || CanStep(c, states[|actions|])
  }

  /** No schedule deadlocks exactly when there is a token to hand out or nothing to probe; the
      worker's flag is passed on unchecked, so a concurrency of zero blocks forever. */
  lemma DeadlockFreeIff(c: Config)
    ensures DeadlockFree(c) <==> c.concurrency >= 1 || c.nodes == []
  {
    if c.concurrency >= 1 || c.nodes == [] {
      forall actions: seq<Action>, states: seq<State> | IsRun(c, actions, states)
        ensures states[|actions|].main == Joined || CanStep(c, states[|actions|])
      {
        RunKeepsInv(c, actions, states, |actions|);
        NeverStuck(c, states[|actions|]);
      }
    } else {
      var actions: seq<Action>, states := [], [Initial(c)];
      assert IsRun(c, actions, states);
      assert !CanStep(c, states[|actions|]);
    }
  }

  function PhaseRank(p: Phase): nat {
    match p
    case Idle => 4
    case Probing => 3
    case Written => 2
    case Freed => 1
    case Finished => 0
  }

  function Ranks(phases: seq<Phase>): nat {
    if phases == [] then 0 else PhaseRank(phases[0]) + Ranks(phases[1..])
  }

  /** The steps that are left at most. */
  function Remaining(c: Config, s: State): int {
    var left := 2 * (|c.nodes| - s.launched);
    Ranks(s.phases) + (|c.nodes| - s.received) +
    match s.main
    case Launching => left + 2
    case Holding => left + 1
    case Receiving => 1
    case Joined => 0
  }

  lemma {:induction false} RanksUpdate(phases: seq<Phase>, i: nat, p: Phase)
    requires i < |phases|
    ensures Ranks(phases[i := p]) == Ranks(phases) - PhaseRank(phases[i]) + PhaseRank(p)
  {
    if i > 0 {
      RanksUpdate(phases[1..], i - 1, p);
      assert phases[i := p][1..] == phases[1..][i - 1 := p];
    } else {
      assert phases[i := p][1..] == phases[1..];
    }
  }

  lemma {:induction false} RanksIdle(n: nat)
    ensures Ranks(seq(n, _ => Idle)) == 4 * n
  {
    if n > 0 {
      RanksIdle(n - 1);
      assert seq(n, _ => Idle)[1..] == seq(n - 1, _ => Idle);
    }
  }

  lemma StepDecreases(c: Config, s: State, a: Action)
    requires Inv(c, s) && Enabled(c, s, a)
    ensures 0 <= Remaining(c, After(c, s, a)) < Remaining(c, s)
  {
    StepKeepsInv(c, s, a);
    match a
    case Launch => RanksUpdate(s.phases, s.launched, Probing);
    case Probe(i, _, _) => RanksUpdate(s.phases, i, Written);
    case Free(i) => RanksUpdate(s.phases, i, Freed);
    case Finish(i) => RanksUpdate(s.phases, i, Finished);
    case _ =>
  }

  lemma {:induction false} RunRemaining(c: Config, actions: seq<Action>, states: seq<State>, k: nat)
    requires IsRun(c, actions, states) && k <= |actions|
    ensures 0 <= Remaining(c, states[k]) <= 7 * |c.nodes| + 2 - k
  {
    RunKeepsInv(c, actions, states, k);
    if k == 0 {
      RanksIdle(|c.nodes|);
    } else {
      RunRemaining(c, actions, states, k - 1);
      RunKeepsInv(c, actions, states, k - 1);
      StepDecreases(c, states[k - 1], actions[k - 1]);
    }
  }

  /** Every schedule is finite. */
  lemma RunsAreFinite(c: Config, actions: seq<Action>, states: seq<State>)
    requires IsRun(c, actions, states)
    ensures |actions| <= 7 * |c.nodes| + 2
  {
    RunRemaining(c, actions, states, |actions|);
  }

  // ---- the join ----

  function NodesOf(items: seq<Item>): seq<int> {
    seq(|items|, i requires 0 <= i < |items| => items[i].node)
  }

  /** Every node of the job once, each with a well-formed report. */
  ghost predicate Reports(items: seq<Item>, nodes: seq<int>) {
    && multiset(NodesOf(items)) == multiset(nodes)
    && forall item <- items :: IsReport(item, item.node)
  }

  function Values(results: seq<Option<Item>>): seq<Item>
    requires forall r <- results :: r.Some?
  {
    seq(|results|, i requires 0 <= i < |results| => results[i].value)
  }

  /** Action `k` is the probe of slot `i`. */
  predicate ProbesSlot(actions: seq<Action>, k: int, i: int) {
    0 <= k < |actions| && actions[k].Probe? && actions[k].i == i
  }

  /** Slot `i` holds the report of what its probe, action `k`, found. */
  predicate SlotTold(c: Config, actions: seq<Action>, s: State, k: int, i: int) {
    && ProbesSlot(actions, k, i) && i < |c.nodes| && i < |s.results| && s.results[i].Some?
    && ReportsOutcome(s.results[i].value, c.nodes[i], actions[k].outcome, actions[k].ts)
  }

  /** There is one probe of slot `i`, no other, and the slot holds its report. */
  ghost predicate ProbedOnce(c: Config, actions: seq<Action>, s: State, i: int) {
    exists k :: SlotTold(c, actions, s, k, i) && forall l :: ProbesSlot(actions, l, i) ==> l == k
  }

  /** So far, every slot was probed at most once, and holds exactly what its probe found. */
  ghost predicate SlotsTold(c: Config, actions: seq<Action>, s: State) {
    && |s.phases| == |s.results| == |c.nodes|
    && (forall k, i :: ProbesSlot(actions, k, i) ==>
          SlotTold(c, actions, s, k, i) && i < |s.phases| && s.phases[i] !in {Idle, Probing})
    && (forall k, l, i :: ProbesSlot(actions, k, i) && ProbesSlot(actions, l, i) ==> k == l)
    && (forall i :: 0 <= i < |s.phases| && s.phases[i] !in {Idle, Probing} ==> exists k :: ProbesSlot(actions, k, i))
  }

  lemma StepTellsSlots(c: Config, actions: seq<Action>, s: State, a: Action)
    requires Inv(c, s) && SlotsTold(c, actions, s) && Enabled(c, s, a)
    ensures SlotsTold(c, actions + [a], After(c, s, a))
  {
    var more, s' := actions + [a], After(c, s, a);
    hide Inv;
    forall k, i | ProbesSlot(more, k, i)
      ensures SlotTold(c, more, s', k, i) && i < |s'.phases| && s'.phases[i] !in {Idle, Probing}
      ensures k < |actions| ==> ProbesSlot(actions, k, i) && !(a.Probe? && a.i == i)
    {
      if k < |actions| {
        assert ProbesSlot(actions, k, i);
      }
    }
    forall i | 0 <= i < |s'.phases| && s'.phases[i] !in {Idle, Probing} ensures exists k :: ProbesSlot(more, k, i) {
      if a.Probe? && a.i == i {
        assert ProbesSlot(more, |actions|, i);
      } else {
        var k :| ProbesSlot(actions, k, i);
        assert ProbesSlot(more, k, i);
      }
    }
  }

  lemma {:induction false} RunTellsSlots(c: Config, actions: seq<Action>, states: seq<State>, n: nat)
    requires IsRun(c, actions, states) && n <= |actions|
    ensures SlotsTold(c, actions[..n], states[n])
  {
    if n > 0 {
      RunTellsSlots(c, actions, states, n - 1);
      RunKeepsInv(c, actions, states, n - 1);
      StepTellsSlots(c, actions[..n - 1], states[n - 1], actions[n - 1]);
      assert actions[..n] == actions[..n - 1] + [actions[n - 1]];
    }
  }

  /** On join every slot was probed exactly once and holds the report of what that probe found, of its
      own node; so the published ids are the job's, whatever the shuffle and the schedule. */
  lemma JoinedReports(c: Config, actions: seq<Action>, states: seq<State>, jobNodes: seq<int>)
    requires IsRun(c, actions, states) && states[|actions|].main == Joined
    requires multiset(c.nodes) == multiset(jobNodes)
    ensures var results := states[|actions|].results;
            && (forall r <- results :: r.Some?)
            && NodesOf(Values(results)) == c.nodes
            && Reports(Values(results), jobNodes)
    ensures forall i :: 0 <= i < |c.nodes| ==> ProbedOnce(c, actions, states[|actions|], i)
  {
    RunKeepsInv(c, actions, states, |actions|);
    RunTellsSlots(c, actions, states, |actions|);
    assert actions[..|actions|] == actions;
    var s := states[|actions|];
    FinishedSize(c, s);
    var items := Values(s.results);
    assert NodesOf(items) == c.nodes;
    forall item <- items ensures IsReport(item, item.node) {
      var i :| 0 <= i < |items| && items[i] == item;
    }
    forall i | 0 <= i < |c.nodes| ensures ProbedOnce(c, actions, s, i) {
      assert s.phases[i] == Finished;
      var k :| ProbesSlot(actions, k, i);
      assert SlotTold(c, actions, s, k, i);
    }
  }
}
