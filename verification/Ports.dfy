/** The port pool of the probe runner, the two attempts of a probe, and callers that give up early. */
module Ports {
  import opened Basics

  const PORT_MIN := 20000
  const PORT_MAX := 20999
  const CAPACITY := PORT_MAX - PORT_MIN + 1

  predicate IsPort(p: int) {
    PORT_MIN <= p <= PORT_MAX
  }

  function AllPorts(): seq<int> {
    seq(CAPACITY, i => PORT_MIN + i)
  }

  /** The pool is a buffered channel. `Acquire` blocks on an empty one and `Release` on a full one:
      their preconditions say when they return. */
  class PortAllocator {
    var ch: seq<int>

    constructor ()
      ensures ch == AllPorts()
    {
      ch := [];
      new;
      for p := PORT_MIN to PORT_MAX + 1
        invariant ch == AllPorts()[..p - PORT_MIN]
      {
        ch := ch + [p];
      }
    }

    method Acquire() returns (p: int)
      requires ch != []
      modifies this
      ensures old(ch) == [p] + ch
    {
      p := ch[0];
      ch := ch[1..];
    }

    method Release(p: int)
      requires |ch| < CAPACITY
      modifies this
      ensures ch == old(ch) + [p]
    {
      ch := ch + [p];
    }
  }

  // ---- probes as a machine ----

  /** Where the goroutine of a probe stands; `again` marks an attempt that ended in an internal error. */
  datatype Place =
    | NeedPort
    | Holding(port: int)
    | Running(port: int)
    | Leaving(port: int, again: bool)
    | Done

  /** `waiting`: the caller is still there and holds its semaphore token. */
  datatype Task = Task(attempt: nat, place: Place, waiting: bool)

  datatype State = State(free: seq<int>, tasks: map<int, Task>, tokens: nat)

  datatype Action =
    | Enter(t: int)
    | Acquire(t: int)
    | Spawn(t: int)
    | Fail(t: int, again: bool)
    | Reap(t: int, again: bool)
    | Release(t: int)
    | Return(t: int)

  predicate HasPort(task: Task) {
    task.place.Holding? || task.place.Running? || task.place.Leaving?
  }

  predicate Enabled(concurrency: nat, s: State, a: Action) {
    match a
    case Enter(t) => t !in s.tasks && s.tokens < concurrency
    case Acquire(t) => t in s.tasks && s.tasks[t].place == NeedPort && s.free != []
    case Spawn(t) => t in s.tasks && s.tasks[t].place.Holding?
    case Fail(t, _) => t in s.tasks && s.tasks[t].place.Holding?
    case Reap(t, _) => t in s.tasks && s.tasks[t].place.Running?
    case Release(t) => t in s.tasks && s.tasks[t].place.Leaving? && |s.free| < CAPACITY
    // the probe is done, or the stage timeout fired at whatever point
    case Return(t) => t in s.tasks && s.tasks[t].waiting && s.tokens > 0
  }

  function At(s: State, t: int, place: Place): State
    requires t in s.tasks
  {
    s.(tasks := s.tasks[t := s.tasks[t].(place := place)])
  }

  function After(concurrency: nat, s: State, a: Action): State
    requires Enabled(concurrency, s, a)
  {
    match a
    case Enter(t) => s.(tasks := s.tasks[t := Task(0, NeedPort, true)], tokens := s.tokens + 1)
    case Acquire(t) => At(s, t, Holding(s.free[0])).(free := s.free[1..])
    case Spawn(t) => At(s, t, Running(s.tasks[t].place.port))
    case Fail(t, again) => At(s, t, Leaving(s.tasks[t].place.port, again))
    case Reap(t, again) => At(s, t, Leaving(s.tasks[t].place.port, again))
    case Release(t) =>
      var task := s.tasks[t];
      var after := if task.place.again && task.attempt == 0 then Task(1, NeedPort, task.waiting)
                   else task.(place := Done);
      s.(free := s.free + [task.place.port], tasks := s.tasks[t := after])
    case Return(t) => s.(tasks := s.tasks[t := s.tasks[t].(waiting := false)], tokens := s.tokens - 1)
  }

  function Initial(): State {
    State(AllPorts(), map[], 0)
  }

  ghost predicate IsRun(concurrency: nat, actions: seq<Action>, states: seq<State>) {
    && |states| == |actions| + 1 && states[0] == Initial()
    && forall i :: 0 <= i < |actions| ==>
         Enabled(concurrency, states[i], actions[i]) && states[i + 1] == After(concurrency, states[i], actions[i])
  }

  // ---- the invariant ----

  /** Free and held ports are the range, each port once. */
  ghost predicate Conserved(s: State) {
    && (forall i, j :: 0 <= i < j < |s.free| ==> s.free[i] != s.free[j])
    && (forall p <- s.free :: IsPort(p))
    && (forall t :: t in s.tasks && HasPort(s.tasks[t]) ==>
          IsPort(s.tasks[t].place.port) && s.tasks[t].place.port !in s.free)
    && (forall t, u ::
          t in s.tasks && u in s.tasks && HasPort(s.tasks[t]) && HasPort(s.tasks[u]) && t != u
          ==> s.tasks[t].place.port != s.tasks[u].place.port)
    && (forall p :: IsPort(p) && p !in s.free ==>
          exists t :: t in s.tasks && HasPort(s.tasks[t]) && s.tasks[t].place.port == p)
  }

  function Waiting(s: State): set<int> {
    set t | t in s.tasks && s.tasks[t].waiting
  }

  ghost predicate Inv(concurrency: nat, s: State) {
    && Conserved(s) && s.tokens == |Waiting(s)| <= concurrency
    && forall t :: t in s.tasks ==> s.tasks[t].attempt <= 1
  }

  /** A step of a probe that changes no port. */
  lemma TaskKeepsConserved(s: State, t: int, task: Task)
    requires Conserved(s)
    requires HasPort(task) <==> t in s.tasks && HasPort(s.tasks[t])
    requires HasPort(task) ==> task.place.port == s.tasks[t].place.port
    ensures Conserved(s.(tasks := s.tasks[t := task]))
  {
    var s' := s.(tasks := s.tasks[t := task]);
    forall p | IsPort(p) && p !in s'.free
      ensures exists u :: u in s'.tasks && HasPort(s'.tasks[u]) && s'.tasks[u].place.port == p
    {
      var u :| u in s.tasks && HasPort(s.tasks[u]) && s.tasks[u].place.port == p;
      assert u in s'.tasks;
    }
  }

  lemma AcquireKeepsConserved(s: State, t: int)
    requires Conserved(s) && t in s.tasks && s.tasks[t].place == NeedPort && s.free != []
    ensures Conserved(At(s, t, Holding(s.free[0])).(free := s.free[1..]))
  {
    var s' := At(s, t, Holding(s.free[0])).(free := s.free[1..]);
    forall p | IsPort(p) && p !in s'.free
      ensures exists u :: u in s'.tasks && HasPort(s'.tasks[u]) && s'.tasks[u].place.port == p
    {
      if p == s.free[0] {
        assert t in s'.tasks;
      } else {
        assert s.free == [s.free[0]] + s.free[1..];
        var u :| u in s.tasks && HasPort(s.tasks[u]) && s.tasks[u].place.port == p;
        assert u in s'.tasks;
      }
    }
  }

  lemma ReleaseKeepsConserved(s: State, t: int, after: Task)
    requires Conserved(s) && t in s.tasks && HasPort(s.tasks[t]) && !HasPort(after)
    ensures Conserved(s.(free := s.free + [s.tasks[t].place.port], tasks := s.tasks[t := after]))
  {
    var s' := s.(free := s.free + [s.tasks[t].place.port], tasks := s.tasks[t := after]);
    forall p | IsPort(p) && p !in s'.free
      ensures exists u :: u in s'.tasks && HasPort(s'.tasks[u]) && s'.tasks[u].place.port == p
    {
      var u :| u in s.tasks && HasPort(s.tasks[u]) && s.tasks[u].place.port == p;
      assert u in s'.tasks;
    }
  }

  lemma StepKeepsConserved(concurrency: nat, s: State, a: Action)
    requires Conserved(s) && Enabled(concurrency, s, a)
    ensures Conserved(After(concurrency, s, a))
  {
    var s' := After(concurrency, s, a);
    match a
    case Acquire(t) => AcquireKeepsConserved(s, t);
    case Release(t) => ReleaseKeepsConserved(s, t, s'.tasks[t]);
    case _ =>
      TaskKeepsConserved(s, a.t, s'.tasks[a.t]);
  }

  lemma StepKeepsTokens(concurrency: nat, s: State, a: Action)
    requires Inv(concurrency, s) && Enabled(concurrency, s, a)
    ensures var s' := After(concurrency, s, a);
            && s'.tokens == |Waiting(s')| <= concurrency
            && forall t :: t in s'.tasks ==> s'.tasks[t].attempt <= 1
  {
    var s' := After(concurrency, s, a);
    match a
    case Enter(t) => assert Waiting(s') == Waiting(s) + {t};
    case Return(t) => assert Waiting(s') == Waiting(s) - {t};
    case _ => assert Waiting(s') == Waiting(s);
  }

  lemma InitialConserved()
    ensures Conserved(Initial())
  {
    forall p | IsPort(p) ensures p in AllPorts() {
      assert AllPorts()[p - PORT_MIN] == p;
    }
  }

  lemma {:induction false} RunKeepsInv(concurrency: nat, actions: seq<Action>, states: seq<State>, n: nat)
    requires IsRun(concurrency, actions, states) && n <= |actions|
    ensures Inv(concurrency, states[n])
  {
    if n == 0 {
      InitialConserved();
      assert Waiting(Initial()) == {};
    } else {
      RunKeepsInv(concurrency, actions, states, n - 1);
      StepKeepsConserved(concurrency, states[n - 1], actions[n - 1]);
      StepKeepsTokens(concurrency, states[n - 1], actions[n - 1]);
    }
  }

  // ---- what every run keeps ----

  function Held(s: State): set<int> {
    set t | t in s.tasks && HasPort(s.tasks[t]) :: s.tasks[t].place.port
  }

  /** The ports with a sing-box process not yet reaped. */
  function Busy(s: State): set<int> {
    set t | t in s.tasks && s.tasks[t].place.Running? :: s.tasks[t].place.port
  }

  ghost predicate Distinct(free: seq<int>) {
    forall i, j :: 0 <= i < j < |free| ==> free[i] != free[j]
  }

  lemma {:induction false} DistinctSize(free: seq<int>)
    requires Distinct(free)
    ensures |set p | p in free| == |free|
  {
    if free != [] {
      var n := |free| - 1;
      DistinctSize(free[..n]);
      assert (set p | p in free) == (set p | p in free[..n]) + {free[n]};
    }
  }

  /** Free and held ports partition the range in every state of every run, no port is free twice or
      held by two attempts, no free port has a process, and no probe makes a third attempt. */
  lemma PortConservation(concurrency: nat, actions: seq<Action>, states: seq<State>, n: nat)
    requires IsRun(concurrency, actions, states) && n <= |actions|
    ensures var s := states[n];
            && Distinct(s.free)
            && (forall p :: IsPort(p) <==> p in s.free || p in Held(s))
            && (forall p <- s.free :: p !in Held(s) && p !in Busy(s))
            && |s.free| + |Held(s)| == CAPACITY
            && forall t, u ::
                 t in s.tasks && u in s.tasks && HasPort(s.tasks[t]) && HasPort(s.tasks[u]) && t != u
                 ==> s.tasks[t].place.port != s.tasks[u].place.port
    ensures forall t :: t in states[n].tasks ==> states[n].tasks[t].attempt <= 1
  {
    RunKeepsInv(concurrency, actions, states, n);
    Partition(states[n]);
  }

  lemma Partition(s: State)
    requires Conserved(s)
    ensures Distinct(s.free) && forall p :: IsPort(p) <==> p in s.free || p in Held(s)
    ensures forall p <- s.free :: p !in Held(s)
    ensures |s.free| + |Held(s)| == CAPACITY
  {
    FreeOrHeld(s);
    DistinctSize(s.free);
    UnionSize((set p | p in s.free), Held(s), Range(PORT_MIN, CAPACITY));
  }

  lemma UnionSize<T>(a: set<T>, b: set<T>, all: set<T>)
    requires forall p :: p in all <==> p in a || p in b
    requires forall p :: p in a ==> p !in b
    ensures |a| + |b| == |all|
  {
    assert a + b == all && a !! b;
  }

  lemma FreeOrHeld(s: State)
    requires Conserved(s)
    ensures forall p :: IsPort(p) <==> p in s.free || p in Held(s)
    ensures forall p :: p in Held(s) ==> p !in s.free
  {
    forall p ensures IsPort(p) <==> p in s.free || p in Held(s) {
      if IsPort(p) && p !in s.free {
        var t :| t in s.tasks && HasPort(s.tasks[t]) && s.tasks[t].place.port == p;
        assert s.tasks[t].place.port in Held(s);
      }
    }
  }

  /** A probe that gives its port back is never blocked by a full pool. */
  lemma ReleaseNeverBlocks(concurrency: nat, actions: seq<Action>, states: seq<State>, n: nat, t: int)
    requires IsRun(concurrency, actions, states) && n <= |actions|
    requires t in states[n].tasks && states[n].tasks[t].place.Leaving?
    ensures Enabled(concurrency, states[n], Release(t))
  {
    RunKeepsInv(concurrency, actions, states, n);
    var s := states[n];
    Partition(s);
    assert s.tasks[t].place.port in Held(s);
  }

  /** A probe that is not done can go on, or waits for a port that another can go on to release. */
  lemma SomeoneMovesOn(concurrency: nat, actions: seq<Action>, states: seq<State>, n: nat, t: int)
    requires IsRun(concurrency, actions, states) && n <= |actions|
    requires t in states[n].tasks && states[n].tasks[t].place != Done
    ensures exists a :: Enabled(concurrency, states[n], a) && !a.Enter? && !a.Return?
  {
    RunKeepsInv(concurrency, actions, states, n);
    var s := states[n];
    if s.tasks[t].place == NeedPort && s.free == [] {
      assert IsPort(PORT_MIN);
      var u :| u in s.tasks && HasPort(s.tasks[u]) && s.tasks[u].place.port == PORT_MIN;
      HolderMovesOn(concurrency, actions, states, n, u);
    } else if s.tasks[t].place == NeedPort {
      assert Enabled(concurrency, s, Acquire(t));
    } else {
      HolderMovesOn(concurrency, actions, states, n, t);
    }
  }

  lemma HolderMovesOn(concurrency: nat, actions: seq<Action>, states: seq<State>, n: nat, t: int)
    requires IsRun(concurrency, actions, states) && n <= |actions|
    requires t in states[n].tasks && HasPort(states[n].tasks[t])
    ensures exists a :: Enabled(concurrency, states[n], a) && !a.Enter? && !a.Return?
  {
    var s := states[n];
    match s.tasks[t].place
    case Holding(_) => assert Enabled(concurrency, s, Spawn(t));
    case Running(_) => assert Enabled(concurrency, s, Reap(t, false));
    case Leaving(_, _) =>
      ReleaseNeverBlocks(concurrency, actions, states, n, t);
      assert Enabled(concurrency, s, Release(t));
  }

  // ---- how many processes ----

  function Abandoned(s: State): set<int> {
    set t | t in s.tasks && !s.tasks[t].waiting && s.tasks[t].place != Done
  }

  function Processes(s: State): set<int> {
    set t | t in s.tasks && s.tasks[t].place.Running?
  }

  /** The semaphore bounds the processes only together with the probes given up on. */
  lemma ProcessesBounded(concurrency: nat, actions: seq<Action>, states: seq<State>, n: nat)
    requires IsRun(concurrency, actions, states) && n <= |actions|
    ensures |Processes(states[n])| <= concurrency + |Abandoned(states[n])|
    ensures |Processes(states[n]) - Abandoned(states[n])| <= concurrency
  {
    RunKeepsInv(concurrency, actions, states, n);
    var s := states[n];
    SubsetSize(Processes(s) - Abandoned(s), Waiting(s));
    SubsetSize(Processes(s), Waiting(s) + Abandoned(s));
  }

  /** A caller that gives up hands its token on while its process lives: one token, two processes. */
  lemma TokenOutlived() returns (actions: seq<Action>, states: seq<State>)
    ensures IsRun(1, actions, states) && |Processes(states[|actions|])| == 2
  {
    actions := [Enter(0), Acquire(0), Spawn(0), Return(0), Enter(1), Acquire(1), Spawn(1)];
    var s0 := Initial();
    var s1 := After(1, s0, Enter(0));
    var s2 := After(1, s1, Acquire(0));
    var s3 := After(1, s2, Spawn(0));
    var s4 := After(1, s3, Return(0));
    var s5 := After(1, s4, Enter(1));
    var s6 := After(1, s5, Acquire(1));
    var s7 := After(1, s6, Spawn(1));
    states := [s0, s1, s2, s3, s4, s5, s6, s7];
    assert Processes(s7) == {0, 1};
  }

  // ---- the retry ----

  /** How the attempts of probe `t` ended so far: whether each was an internal error. */
  function Ends(actions: seq<Action>, t: int): seq<bool> {
    if actions == [] then []
    else
      var a := actions[|actions| - 1];
      Ends(actions[..|actions| - 1], t) + if (a.Fail? || a.Reap?) && a.t == t then [a.again] else []
  }

  /** What the ends of its attempts say about where a probe stands. */
  predicate AttemptsSay(ends: seq<bool>, task: Task) {
    var before := if task.attempt == 0 then [] else [true];
    match task.place
    case NeedPort => ends == before
    case Holding(_) => ends == before
    case Running(_) => ends == before
    case Leaving(_, again) => ends == before + [again]
    case Done => |ends| == task.attempt + 1 && ends[..task.attempt] == before && (task.attempt == 0 ==> !ends[0])
  }

  lemma EndsStep(actions: seq<Action>, a: Action, t: int)
    ensures Ends(actions + [a], t) == Ends(actions, t) + if (a.Fail? || a.Reap?) && a.t == t then [a.again] else []
  {
    assert (actions + [a])[..|actions|] == actions;
  }

  ghost predicate AllAttemptsSay(actions: seq<Action>, s: State) {
    && (forall t :: t in s.tasks ==> s.tasks[t].attempt <= 1 && AttemptsSay(Ends(actions, t), s.tasks[t]))
    && (forall t :: t !in s.tasks ==> Ends(actions, t) == [])
  }

  lemma StepKeepsAttempts(concurrency: nat, actions: seq<Action>, s: State, a: Action)
    requires AllAttemptsSay(actions, s) && Enabled(concurrency, s, a)
    ensures AllAttemptsSay(actions + [a], After(concurrency, s, a))
  {
    hide Ends, AttemptsSay, Enabled, After;
    var s' := After(concurrency, s, a);
    forall t ensures t in s'.tasks ==> s'.tasks[t].attempt <= 1 && AttemptsSay(Ends(actions + [a], t), s'.tasks[t])
             ensures t !in s'.tasks ==> Ends(actions + [a], t) == []
    {
      EndsStep(actions, a, t);
      OneTaskKeeps(concurrency, s, a, t, Ends(actions, t));
    }
  }

  lemma OneTaskKeeps(concurrency: nat, s: State, a: Action, t: int, ends: seq<bool>)
    requires Enabled(concurrency, s, a)
    requires if t in s.tasks then s.tasks[t].attempt <= 1 && AttemptsSay(ends, s.tasks[t]) else ends == []
    ensures var s' := After(concurrency, s, a);
            var ends' := ends + if (a.Fail? || a.Reap?) && a.t == t then [a.again] else [];
            if t in s'.tasks then s'.tasks[t].attempt <= 1 && AttemptsSay(ends', s'.tasks[t]) else ends' == []
  {
    if a.t != t {
      assert t in After(concurrency, s, a).tasks <==> t in s.tasks;
      hide AttemptsSay;
    }
  }

  lemma {:induction false} RunKeepsAttempts(concurrency: nat, actions: seq<Action>, states: seq<State>, n: nat)
    requires IsRun(concurrency, actions, states) && n <= |actions|
    ensures AllAttemptsSay(actions[..n], states[n])
  {
    if n > 0 {
      RunKeepsAttempts(concurrency, actions, states, n - 1);
      StepKeepsAttempts(concurrency, actions[..n - 1], states[n - 1], actions[n - 1]);
      assert actions[..n] == actions[..n - 1] + [actions[n - 1]];
    }
  }

  /** In every interleaving, a probe that is done made a second attempt exactly when its first ended in an
      internal error, and never a third. */
  lemma RetriedOnce(concurrency: nat, actions: seq<Action>, states: seq<State>, n: nat, t: int)
    requires IsRun(concurrency, actions, states) && n <= |actions|
    requires t in states[n].tasks && states[n].tasks[t].place == Done
    ensures var ends := Ends(actions[..n], t); ends == [false] || (|ends| == 2 && ends[0])
  {
    RunKeepsAttempts(concurrency, actions, states, n);
    assert AttemptsSay(Ends(actions[..n], t), states[n].tasks[t]);
  }
}
