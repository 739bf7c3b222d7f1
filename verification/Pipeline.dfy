/** From a job to its stored checks: at-least-once delivery on both streams, message-id
    deduplication on the results stream, crashes, naks and lost replies anywhere. */
module Pipeline {
  import opened Basics
  import opened Strings
  import opened Recompute
  import opened Tables
  import opened Ingest
  import opened Confluence
  import opened FanOut

  datatype Job = Job(stage: string, nodes: seq<int>)

  // ---- the message id of a results batch ----

  function MsgId(jobId: string, vantage: string, stage: string): string {
    jobId + ":" + vantage + ":" + stage
  }

  /** One id, one job, vantage and stage, as long as job ids and stages contain no colon. */
  lemma MsgIdInjective(j: string, v: string, s: string, j': string, v': string, s': string)
    requires ':' !in j && ':' !in j' && ':' !in s && ':' !in s'
    requires MsgId(j, v, s) == MsgId(j', v', s')
    ensures j == j' && v == v' && s == s'
  {
    MsgIdParts(j, v, s);
    MsgIdParts(j', v', s');
    FirstColon(j, v + ":" + s);
    FirstColon(j', v' + ":" + s');
    LastColon(v, s);
    LastColon(v', s');
  }

  lemma MsgIdParts(j: string, v: string, s: string)
    ensures MsgId(j, v, s) == j + ":" + (v + ":" + s)
  {
  }

  lemma FirstColon(j: string, rest: string)
    requires ':' !in j
    ensures var t := j + ":" + rest; IndexByte(t, ':') == |j| && t[..|j|] == j && t[|j| + 1..] == rest
  {
    IndexByteIs(j + ":" + rest, ':', |j|);
  }

  lemma LastColon(v: string, s: string)
    requires ':' !in s
    ensures var t := v + ":" + s; LastIndexByte(t, ':') == |v| && t[..|v|] == v && t[|v| + 1..] == s
  {
    LastIndexByteIs(v + ":" + s, ':', |v|);
  }

  // ---- the state ----

  /** A job message being worked on: fetched, its report ready, or its report accepted. */
  datatype Work =
    | Fetched(jobId: string, vantage: string)
    | Ready(batch: Batch)
    | Sent(batch: Batch)

  /** `log` is every message the results stream ever stored, acked or not; `window` the ids it
      still remembers for deduplication; `inflight` the messages the coordinator holds, each with
      the number of items taken in. */
  datatype State = State(
    jobs: map<string, Job>, jobsDone: set<string>, works: map<int, Work>,
    log: seq<Batch>, logAcked: set<nat>, window: set<string>,
    inflight: map<nat, nat>, world: World)

  datatype Action =
    | Plan(jobId: string, job: Job)
    | FetchJob(w: int, jobId: string, vantage: string)
    | Report(w: int, items: seq<Item>)
    | Publish(w: int, arrives: bool, answered: bool)
    | AckJob(w: int, arrives: bool)
    | LoseWork(w: int)
    | ForgetId(id: string)
    | FetchResults(m: nat)
    | Take(m: nat, check: Check)
    | Torn(m: nat, check: Check)
    | AckResults(m: nat)
    | LoseCoordinator
    | Discover(identity: Identity, now: int)

  function IdOf(b: Batch): string {
    MsgId(b.jobId, b.vantage, b.stage)
  }

  predicate Stored(s: State, b: Batch) {
    exists m :: 0 <= m < |s.log| && IdOf(s.log[m]) == IdOf(b)
  }

  function Deduplicated(s: State, b: Batch): State {
    s.(log := if IdOf(b) in s.window then s.log else s.log + [b], window := s.window + {IdOf(b)})
  }

  ghost predicate Step(parses: string -> bool, s: State, a: Action, s': State) {
    match a
    case Plan(id, job) =>
      // unique ids, of nodes that are in the table
      && id !in s.jobs && ':' !in id && ':' !in job.stage && (forall n <- job.nodes :: n in s.world.tables.nodes)
      && s' == s.(jobs := s.jobs[id := job])
    case FetchJob(w, id, vantage) =>
      && id in s.jobs && id !in s.jobsDone && w !in s.works
      && s' == s.(works := s.works[w := Fetched(id, vantage)])
    case Report(w, items) =>
      && w in s.works && s.works[w].Fetched? && s.works[w].jobId in s.jobs
      && var id, job := s.works[w].jobId, s.jobs[s.works[w].jobId];
      && Reports(items, job.nodes)
      && s' == s.(works := s.works[w := Ready(Batch(id, s.works[w].vantage, job.stage, items))])
    case Publish(w, arrives, answered) =>
      // the reply may be lost although the message was stored; then the worker naks
      && w in s.works && s.works[w].Ready?
      && var b := s.works[w].batch;
      && var t := if arrives then Deduplicated(s, b) else s;
      && s' == t.(works := if arrives && answered then s.works[w := Sent(b)] else s.works - {w})
    case AckJob(w, arrives) =>
      && w in s.works && s.works[w].Sent?
      && s' == s.(works := s.works - {w},
                  jobsDone := if arrives then s.jobsDone + {s.works[w].batch.jobId} else s.jobsDone)
    case LoseWork(w) => s' == s.(works := s.works - {w})
    case ForgetId(id) => s' == s.(window := s.window - {id})
    case FetchResults(m) =>
      && m < |s.log| && m !in s.logAcked
      && s' == s.(inflight := s.inflight[m := 0])
    case Take(m, c) =>
      && Next(s, m, c) && Took(parses, s.world, c, s'.world)
      && s' == s.(world := s'.world, inflight := s.inflight[m := s.inflight[m] + 1])
    case Torn(m, c) =>
      // the crash between InsertCheck and the recompute
      && Next(s, m, c) && Fresh(s.world.tables, c)
      && s' == s.(inflight := map[], world := s.world.(
                  tables := s.world.tables.(checks := s.world.tables.checks[KeyOf(c) := c])))
    case AckResults(m) =>
      && m in s.inflight && m < |s.log| && s.inflight[m] == |s.log[m].items|
      && s' == s.(inflight := s.inflight - {m}, logAcked := s.logAcked + {m})
    case LoseCoordinator => s' == s.(inflight := map[])
    case Discover(identity, now) =>
      && s' == s.(world := s.world.(tables := s'.world.tables))
      && exists id, created :: Upserted(s.world.tables, identity, now, id, created, s'.world.tables)
  }

  /** `c` is the next item of a message the coordinator holds. */
  ghost predicate Next(s: State, m: nat, c: Check) {
    && m in s.inflight && m < |s.log| && s.inflight[m] < |s.log[m].items|
    && IsStamp(s.log[m], s.log[m].items[s.inflight[m]], c)
  }

  predicate Initial(s: State) {
    && s.jobs == map[] && s.jobsDone == {} && s.works == map[] && s.log == [] && s.logAcked == {}
    && s.window == {} && s.inflight == map[]
  }

  ghost predicate IsRun(parses: string -> bool, actions: seq<Action>, states: seq<State>) {
    && |states| == |actions| + 1 && Initial(states[0])
    && forall i :: 0 <= i < |actions| ==> Step(parses, states[i], actions[i], states[i + 1])
  }

  // ---- the invariant ----

  ghost predicate HasCheck(checks: Checks, node: int, vantage: string, stage: string) {
    exists k :: k in checks && k.node == node && k.vantage == vantage && k.stage == stage
  }

  /** There is a check under the key of the item. */
  predicate Kept(checks: Checks, b: Batch, item: Item) {
    item.ts.Some? && ItemKey(b, item) in checks
  }

  /** No check of the start is changed, and every other one says what an item of a stored message says. */
  ghost predicate Told(was: Checks, s: State) {
    var checks := s.world.tables.checks;
    && (forall k :: k in was ==> k in checks && checks[k] == was[k])
    && (forall k :: k in checks && k !in was ==> KeyOf(checks[k]) == k && ToldByLog(s.log, checks[k]))
  }

  ghost predicate ToldByLog(log: seq<Batch>, c: Check) {
    exists m, i :: 0 <= m < |log| && 0 <= i < |log[m].items| && Tells(c, log[m], log[m].items[i])
  }

  /** A batch reports every node of its job. */
  ghost predicate FullReport(jobs: map<string, Job>, b: Batch) {
    b.jobId in jobs && b.stage == jobs[b.jobId].stage && Reports(b.items, jobs[b.jobId].nodes)
  }

  ghost predicate TakenUpTo(s: State, m: nat, n: nat)
    requires m < |s.log| && n <= |s.log[m].items|
  {
    forall i :: 0 <= i < n ==> Kept(s.world.tables.checks, s.log[m], s.log[m].items[i])
  }

  ghost predicate JobsInv(s: State) {
    && (forall id :: id in s.jobs ==>
          ':' !in id && ':' !in s.jobs[id].stage && forall n <- s.jobs[id].nodes :: n in s.world.tables.nodes)
    && (forall w :: w in s.works && s.works[w].Fetched? ==> s.works[w].jobId in s.jobs)
  }

  ghost predicate BatchesInv(s: State) {
    && (forall m :: 0 <= m < |s.log| ==> FullReport(s.jobs, s.log[m]))
    && (forall w :: w in s.works && !s.works[w].Fetched? ==> FullReport(s.jobs, s.works[w].batch))
  }

  ghost predicate PublishInv(s: State) {
    && (forall id :: id in s.window ==> exists m :: 0 <= m < |s.log| && IdOf(s.log[m]) == id)
    && (forall w :: w in s.works && s.works[w].Sent? ==> Stored(s, s.works[w].batch))
    && (forall id :: id in s.jobsDone ==> id in s.jobs && exists m :: 0 <= m < |s.log| && s.log[m].jobId == id)
  }

  ghost predicate TakenInv(s: State) {
    && (forall m :: m in s.inflight ==>
          m < |s.log| && s.inflight[m] <= |s.log[m].items| && TakenUpTo(s, m, s.inflight[m]))
    && (forall m :: m in s.logAcked ==> m < |s.log| && TakenUpTo(s, m, |s.log[m].items|))
  }

  ghost predicate Inv(s: State) {
    JobsInv(s) && BatchesInv(s) && PublishInv(s) && TakenInv(s)
  }

  // ---- each step keeps it ----

  /** The tables only grow. */
  predicate Grows(t: Tables, t': Tables) {
    t.nodes.Keys <= t'.nodes.Keys && t.checks.Keys <= t'.checks.Keys
  }

  lemma TookGrows(parses: string -> bool, w: World, c: Check, w': World)
    requires Took(parses, w, c, w')
    ensures Grows(w.tables, w'.tables)
    ensures c.node in w.tables.nodes ==> KeyOf(c) in w'.tables.checks
  {
  }

  lemma StepGrows(parses: string -> bool, s: State, a: Action, s': State)
    requires Step(parses, s, a, s')
    ensures Grows(s.world.tables, s'.world.tables)
  {
    match a
    case Take(m, c) => TookGrows(parses, s.world, c, s'.world);
    case _ =>
  }

  lemma StepKeepsJobs(parses: string -> bool, s: State, a: Action, s': State)
    requires JobsInv(s) && Step(parses, s, a, s') && Grows(s.world.tables, s'.world.tables)
    ensures JobsInv(s')
  {
  }

  lemma StepKeepsBatches(parses: string -> bool, s: State, a: Action, s': State)
    requires JobsInv(s) && BatchesInv(s) && Step(parses, s, a, s')
    ensures BatchesInv(s')
  {
  }

  /** What a publish that arrived leaves behind, stored now or stored before. */
  lemma ArrivedStored(s: State, b: Batch)
    requires forall id :: id in s.window ==> exists m :: 0 <= m < |s.log| && IdOf(s.log[m]) == id
    ensures Stored(Deduplicated(s, b), b)
  {
    var t := Deduplicated(s, b);
    if IdOf(b) in s.window {
      var m :| 0 <= m < |s.log| && IdOf(s.log[m]) == IdOf(b);
      assert t.log[m] == s.log[m];
    } else {
      assert t.log[|s.log|] == b;
    }
  }

  lemma StoredKept(s: State, s': State, id: string)
    requires s.log <= s'.log && exists m :: 0 <= m < |s.log| && IdOf(s.log[m]) == id
    ensures exists m :: 0 <= m < |s'.log| && IdOf(s'.log[m]) == id
  {
    var m :| 0 <= m < |s.log| && IdOf(s.log[m]) == id;
    assert s'.log[m] == s.log[m];
  }

  lemma PublishKeeps(s: State, b: Batch, s': State)
    requires PublishInv(s) && s'.jobs == s.jobs && s'.jobsDone == s.jobsDone
    requires s'.log == Deduplicated(s, b).log && s'.window == s.window + {IdOf(b)}
    requires forall w :: w in s'.works && s'.works[w].Sent? ==>
                           s'.works[w] == Sent(b) || (w in s.works && s.works[w] == s'.works[w])
    ensures PublishInv(s')
  {
    ArrivedStored(s, b);
    forall id | id in s'.window ensures exists m :: 0 <= m < |s'.log| && IdOf(s'.log[m]) == id {
      if id in s.window {
        StoredKept(s, s', id);
      } else {
        var m :| 0 <= m < |s'.log| && IdOf(s'.log[m]) == IdOf(b);
      }
    }
    forall w | w in s'.works && s'.works[w].Sent? ensures Stored(s', s'.works[w].batch) {
      if s'.works[w] != Sent(b) {
        StoredKept(s, s', IdOf(s'.works[w].batch));
      }
    }
    forall id | id in s.jobsDone ensures exists m :: 0 <= m < |s'.log| && s'.log[m].jobId == id {
      var m :| 0 <= m < |s.log| && s.log[m].jobId == id;
      assert s'.log[m] == s.log[m];
    }
  }

  lemma SentIsLogged(s: State, b: Batch)
    requires JobsInv(s) && BatchesInv(s) && Stored(s, b) && FullReport(s.jobs, b)
    ensures exists m :: 0 <= m < |s.log| && s.log[m].jobId == b.jobId
  {
    var m :| 0 <= m < |s.log| && IdOf(s.log[m]) == IdOf(b);
    var o := s.log[m];
    assert FullReport(s.jobs, o);
    MsgIdInjective(o.jobId, o.vantage, o.stage, b.jobId, b.vantage, b.stage);
  }

  /** All other steps leave the log alone; a job is done only once its report was sent. */
  lemma OtherSteps(parses: string -> bool, s: State, a: Action, s': State)
    requires Step(parses, s, a, s') && !(a.Publish? && a.arrives)
    ensures s'.log == s.log && s'.window <= s.window && s.jobs.Keys <= s'.jobs.Keys
    ensures forall w :: w in s'.works && s'.works[w].Sent? ==> w in s.works && s.works[w] == s'.works[w]
    ensures forall id :: id in s'.jobsDone ==>
              id in s.jobsDone || exists w :: w in s.works && s.works[w].Sent? && s.works[w].batch.jobId == id
  {
  }

  lemma StepKeepsPublish(parses: string -> bool, s: State, a: Action, s': State)
    requires JobsInv(s) && BatchesInv(s) && PublishInv(s) && Step(parses, s, a, s')
    ensures PublishInv(s')
  {
    if a.Publish? && a.arrives {
      PublishKeeps(s, s.works[a.w].batch, s');
    } else {
      OtherSteps(parses, s, a, s');
      OthersKeepPublish(s, s');
    }
  }

  lemma OthersKeepPublish(s: State, s': State)
    requires JobsInv(s) && BatchesInv(s) && PublishInv(s)
    requires s'.log == s.log && s'.window <= s.window && s.jobs.Keys <= s'.jobs.Keys
    requires forall w :: w in s'.works && s'.works[w].Sent? ==> w in s.works && s.works[w] == s'.works[w]
    requires forall id :: id in s'.jobsDone ==>
               id in s.jobsDone || exists w :: w in s.works && s.works[w].Sent? && s.works[w].batch.jobId == id
    ensures PublishInv(s')
  {
    forall id | id in s'.jobsDone && id !in s.jobsDone
      ensures id in s.jobs && exists m :: 0 <= m < |s.log| && s.log[m].jobId == id
    {
      var w :| w in s.works && s.works[w].Sent? && s.works[w].batch.jobId == id;
      SentIsLogged(s, s.works[w].batch);
    }
  }

  lemma TakenKept(s: State, s': State, m: nat, n: nat)
    requires s.log <= s'.log && Grows(s.world.tables, s'.world.tables)
    requires m < |s.log| && n <= |s.log[m].items| && TakenUpTo(s, m, n)
    ensures TakenUpTo(s', m, n)
  {
    var b := s.log[m];
    assert s'.log[m] == b;
    forall i | 0 <= i < n ensures Kept(s'.world.tables.checks, b, b.items[i]) {
      assert Kept(s.world.tables.checks, b, b.items[i]);
    }
  }

  lemma ItemNode(s: State, m: nat, i: nat)
    requires JobsInv(s) && BatchesInv(s) && m < |s.log| && i < |s.log[m].items|
    ensures s.log[m].items[i].node in s.world.tables.nodes && s.log[m].items[i].ts.Some?
  {
    var b := s.log[m];
    assert FullReport(s.jobs, b);
    assert NodesOf(b.items)[i] in multiset(NodesOf(b.items));
    assert b.items[i].node in s.jobs[b.jobId].nodes;
    assert IsReport(b.items[i], b.items[i].node);
  }

  lemma TakeKeeps(parses: string -> bool, s: State, m: nat, c: Check, s': State)
    requires JobsInv(s) && BatchesInv(s) && TakenInv(s) && Next(s, m, c) && s'.log == s.log
    requires Took(parses, s.world, c, s'.world) && Grows(s.world.tables, s'.world.tables)
    ensures TakenUpTo(s', m, s.inflight[m] + 1)
  {
    var n := s.inflight[m];
    TakenKept(s, s', m, n);
    ItemNode(s, m, n);
    TookGrows(parses, s.world, c, s'.world);
    StampTells(s.log[m], s.log[m].items[n], c);
    assert Kept(s'.world.tables.checks, s.log[m], s.log[m].items[n]);
  }

  /** How a message comes to be held, further along, or acked. */
  ghost predicate Moves(parses: string -> bool, s: State, s': State) {
    && s.log <= s'.log
    && (forall m :: m in s'.inflight && !(m in s.inflight && s'.inflight[m] == s.inflight[m]) && s'.inflight[m] != 0 ==>
          exists c :: Next(s, m, c) && s'.log == s.log && Took(parses, s.world, c, s'.world)
                   && s'.inflight[m] == s.inflight[m] + 1)
    && (forall m :: m in s'.inflight ==> m in s.inflight || m < |s.log|)
    && (forall m :: m in s'.logAcked && m !in s.logAcked ==>
          m in s.inflight && m < |s.log| && s.inflight[m] == |s.log[m].items|)
  }

  lemma StepMoves(parses: string -> bool, s: State, a: Action, s': State)
    requires Step(parses, s, a, s')
    ensures Moves(parses, s, s')
  {
  }

  lemma StepKeepsTaken(parses: string -> bool, s: State, s': State)
    requires JobsInv(s) && BatchesInv(s) && TakenInv(s)
    requires Moves(parses, s, s') && Grows(s.world.tables, s'.world.tables)
    ensures TakenInv(s')
  {
    forall m | m in s'.inflight
      ensures m < |s'.log| && s'.inflight[m] <= |s'.log[m].items| && TakenUpTo(s', m, s'.inflight[m])
    {
      if m in s.inflight && s'.inflight[m] == s.inflight[m] {
        TakenKept(s, s', m, s.inflight[m]);
      } else if s'.inflight[m] != 0 {
        var c :| Next(s, m, c) && s'.log == s.log && Took(parses, s.world, c, s'.world)
              && s'.inflight[m] == s.inflight[m] + 1;
        TakeKeeps(parses, s, m, c, s');
      }
    }
    forall m | m in s'.logAcked ensures m < |s'.log| && TakenUpTo(s', m, |s'.log[m].items|) {
      TakenKept(s, s', m, |s.log[m].items|);
    }
  }

  lemma {:induction false} RunKeepsInv(parses: string -> bool, actions: seq<Action>, states: seq<State>, n: nat)
    requires IsRun(parses, actions, states) && n <= |actions|
    ensures Inv(states[n])
  {
    if n > 0 {
      RunKeepsInv(parses, actions, states, n - 1);
      var s, a, s' := states[n - 1], actions[n - 1], states[n];
      StepGrows(parses, s, a, s');
      StepKeepsJobs(parses, s, a, s');
      StepKeepsBatches(parses, s, a, s');
      StepKeepsPublish(parses, s, a, s');
      StepMoves(parses, s, a, s');
      StepKeepsTaken(parses, s, s');
    }
  }

  // ---- deduplication ----

  /** While the stream remembers a message id, it stores one message of that id at most, however often a
      worker publishes. */
  lemma {:induction false} StoredOnce(parses: string -> bool, actions: seq<Action>, states: seq<State>, n: nat, id: string)
    requires IsRun(parses, actions, states) && n <= |actions|
    requires forall i :: 0 <= i < n ==> actions[i] != ForgetId(id)
    ensures forall m :: 0 <= m < |states[n].log| && IdOf(states[n].log[m]) == id ==> id in states[n].window
    ensures forall m, l :: 0 <= m < l < |states[n].log| && IdOf(states[n].log[m]) == id ==> IdOf(states[n].log[l]) != id
  {
    hide IdOf, IsStamp, Reports, Took;
    if n > 0 {
      StoredOnce(parses, actions, states, n - 1, id);
      LogStep(parses, states[n - 1], actions[n - 1], states[n]);
    }
  }

  lemma LogStep(parses: string -> bool, s: State, a: Action, s': State)
    requires Step(parses, s, a, s')
    ensures || (s'.log == s.log && forall id :: id in s.window && a != ForgetId(id) ==> id in s'.window)
            || exists b :: IdOf(b) !in s.window && s'.log == s.log + [b] && s'.window == s.window + {IdOf(b)}
  {
    hide IdOf, IsStamp, Reports, Took;
    if a.Publish? && a.arrives {
      var b := s.works[a.w].batch;
      assert s'.log == Deduplicated(s, b).log;
    }
  }

  // ---- what the checks say ----

  /** A step adds at most the check of an item of a stored message. */
  ghost predicate AddsReport(s: State, s': State, c: Check) {
    && ToldByLog(s.log, c) && KeyOf(c) !in s.world.tables.checks
    && s'.world.tables.checks == s.world.tables.checks[KeyOf(c) := c]
  }

  lemma NextIsTold(s: State, m: nat, c: Check)
    requires Next(s, m, c)
    ensures ToldByLog(s.log, c)
  {
    StampTells(s.log[m], s.log[m].items[s.inflight[m]], c);
  }

  lemma StepAddsReport(parses: string -> bool, s: State, a: Action, s': State)
    requires Step(parses, s, a, s')
    ensures s.log <= s'.log
    ensures s'.world.tables.checks == s.world.tables.checks || exists c :: AddsReport(s, s', c)
  {
    hide ToldByLog, Reports, IsStamp;
    if a.Take? || a.Torn? {
      NextIsTold(s, a.m, a.check);
      if s'.world.tables.checks != s.world.tables.checks {
        assert AddsReport(s, s', a.check);
      }
    }
  }

  lemma ToldGrows(log: seq<Batch>, log': seq<Batch>, c: Check)
    requires ToldByLog(log, c) && log <= log'
    ensures ToldByLog(log', c)
  {
    var m, i :| 0 <= m < |log| && 0 <= i < |log[m].items| && Tells(c, log[m], log[m].items[i]);
    assert log'[m] == log[m];
  }

  lemma StepKeepsTold(parses: string -> bool, was: Checks, s: State, a: Action, s': State)
    requires Told(was, s) && Step(parses, s, a, s')
    ensures Told(was, s')
  {
    hide Step, Told;
    StepAddsReport(parses, s, a, s');
    ToldStep(was, s, s');
  }

  lemma ToldStep(was: Checks, s: State, s': State)
    requires Told(was, s) && s.log <= s'.log
    requires s'.world.tables.checks == s.world.tables.checks || exists c :: AddsReport(s, s', c)
    ensures Told(was, s')
  {
    hide ToldByLog, KeyOf;
    var checks, checks' := s.world.tables.checks, s'.world.tables.checks;
    if checks' != checks {
      var c :| AddsReport(s, s', c);
      ToldGrows(s.log, s'.log, c);
    }
    forall k | k in checks && k !in was ensures ToldByLog(s'.log, checks[k]) {
      ToldGrows(s.log, s'.log, checks[k]);
    }
  }

  /** In every run: a check once stored never changes, and each says, field by field, what an item of a
      stored results message says. */
  lemma {:induction false} RunTells(parses: string -> bool, actions: seq<Action>, states: seq<State>, n: nat)
    requires IsRun(parses, actions, states) && n <= |actions|
    ensures Told(states[0].world.tables.checks, states[n])
  {
    if n > 0 {
      RunTells(parses, actions, states, n - 1);
      StepKeepsTold(parses, states[0].world.tables.checks, states[n - 1], actions[n - 1], states[n]);
    }
  }

  /** A results message of the job, acked by the coordinator. */
  predicate AckedResult(s: State, jobId: string, m: nat) {
    m in s.logAcked && m < |s.log| && s.log[m].jobId == jobId
  }

  /** No stored message reports something else of the same node, vantage, stage and time. */
  ghost predicate Undisputed(log: seq<Batch>, b: Batch, item: Item) {
    forall m, i :: 0 <= m < |log| && 0 <= i < |log[m].items| ==>
      var (e, o) := (log[m], log[m].items[i]);
      (e.vantage, e.stage, o.node, o.ts) == (b.vantage, b.stage, item.node, item.ts) ==> o == item
  }

  /** The item has its check: under its key, and with what it reports unless another report or an older
      check had the key first. */
  ghost predicate ReportKept(was: Checks, s: State, b: Batch, item: Item) {
    && Kept(s.world.tables.checks, b, item)
    && (ItemKey(b, item) !in was && Undisputed(s.log, b, item) ==>
          Tells(s.world.tables.checks[ItemKey(b, item)], b, item))
  }

  /** No result is lost: behind every acked job there is a stored results message, and for every
      message of the job that is acked too, however many there are, every node of the job has an item
      with its check of the job's stage and of the vantage that probed it. */
  lemma NothingLost(parses: string -> bool, actions: seq<Action>, states: seq<State>, n: nat, jobId: string)
      returns (m: nat)
    requires IsRun(parses, actions, states) && n <= |actions| && jobId in states[n].jobsDone
    ensures jobId in states[n].jobs && m < |states[n].log| && states[n].log[m].jobId == jobId
    ensures forall k: nat :: AckedResult(states[n], jobId, k) ==>
              forall node <- states[n].jobs[jobId].nodes ::
                HasCheck(states[n].world.tables.checks, node, states[n].log[k].vantage, states[n].jobs[jobId].stage)
    ensures forall k: nat :: AckedResult(states[n], jobId, k) ==>
              && states[n].log[k].stage == states[n].jobs[jobId].stage
              && Reports(states[n].log[k].items, states[n].jobs[jobId].nodes)
              && forall item <- states[n].log[k].items ::
                   ReportKept(states[0].world.tables.checks, states[n], states[n].log[k], item)
  {
    RunKeepsInv(parses, actions, states, n);
    RunTells(parses, actions, states, n);
    hide IsRun;
    var s := states[n];
    m :| 0 <= m < |s.log| && s.log[m].jobId == jobId;
    forall k: nat | AckedResult(s, jobId, k)
      ensures forall node <- s.jobs[jobId].nodes ::
                HasCheck(s.world.tables.checks, node, s.log[k].vantage, s.jobs[jobId].stage)
      ensures s.log[k].stage == s.jobs[jobId].stage && Reports(s.log[k].items, s.jobs[jobId].nodes)
      ensures forall item <- s.log[k].items :: ReportKept(states[0].world.tables.checks, s, s.log[k], item)
    {
      AckedReportsAll(s, k);
      forall item <- s.log[k].items ensures ReportKept(states[0].world.tables.checks, s, s.log[k], item) {
        var i :| 0 <= i < |s.log[k].items| && s.log[k].items[i] == item;
        ItemReportKept(states[0].world.tables.checks, s, k, i);
      }
    }
  }

  lemma ItemReportKept(was: Checks, s: State, m: nat, i: nat)
    requires Inv(s) && Told(was, s) && m in s.logAcked && m < |s.log| && i < |s.log[m].items|
    ensures ReportKept(was, s, s.log[m], s.log[m].items[i])
  {
    var b, item := s.log[m], s.log[m].items[i];
    assert Kept(s.world.tables.checks, b, item);
    var key := ItemKey(b, item);
    var c := s.world.tables.checks[key];
    if key !in was && Undisputed(s.log, b, item) {
      var l, j :| 0 <= l < |s.log| && 0 <= j < |s.log[l].items| && Tells(c, s.log[l], s.log[l].items[j]);
      ItemNode(s, l, j);
    }
  }

  lemma AckedReportsAll(s: State, m: nat)
    requires Inv(s) && m in s.logAcked
    ensures m < |s.log| && s.log[m].jobId in s.jobs
    ensures s.log[m].stage == s.jobs[s.log[m].jobId].stage && Reports(s.log[m].items, s.jobs[s.log[m].jobId].nodes)
    ensures forall node <- s.jobs[s.log[m].jobId].nodes ::
              HasCheck(s.world.tables.checks, node, s.log[m].vantage, s.jobs[s.log[m].jobId].stage)
  {
    var b := s.log[m];
    assert FullReport(s.jobs, b) && TakenUpTo(s, m, |b.items|);
    forall node <- s.jobs[b.jobId].nodes
      ensures HasCheck(s.world.tables.checks, node, b.vantage, s.jobs[b.jobId].stage)
    {
      assert node in multiset(NodesOf(b.items));
      var i :| 0 <= i < |b.items| && NodesOf(b.items)[i] == node;
      assert Kept(s.world.tables.checks, b, b.items[i]);
      assert ItemKey(b, b.items[i]).node == node;
    }
  }
}
