/** The coordinator's leader lease: a timestamped entry in the REGISTRY bucket, claimed when absent or
    old and renewed blindly by whoever believes to be the leader. Times are in milliseconds; the
    entry stores whole seconds. */
module Lease {
  import opened Basics

  /** The bucket forgets an entry two hours after it was written. */
  const REGISTRY_TTL := 7_200_000

  /** `gap`: the longest time between two renewals of a live leader that reach the bucket.
      `split`: a claim's read and write are separate. `flaky`: the read may fail, after which the
      claim goes on to write. `name`: the instance id of a process. */
  datatype Config = Config(ttl: int, gap: nat, split: bool, flaky: bool, name: int -> string)

  datatype Entry = Entry(id: string, ts: int, at: int)

  /** `leaders` maps each live process that believes to be the leader to its last write; `waiting`
      are those between the read and the write of a claim. */
  datatype State = State(now: int, entry: Option<Entry>, leaders: map<int, int>, waiting: set<int>)

  datatype Action =
    | Tick(d: nat)
    | Claim(p: int)
    | ClaimUnanswered(p: int)
    | Read(p: int)
    | Write(p: int)
    | ReadFails(p: int)
    | Renew(p: int)
    | Stop(p: int)
    | Expire

  /** A lease that another instance holds and that is younger than the ttl. */
  predicate Healthy(c: Config, s: State, p: int) {
    s.entry.Some? && s.entry.value.id != c.name(p) && s.now - 1000 * s.entry.value.ts < c.ttl
  }

  function Put(c: Config, s: State, p: int): State {
    s.(entry := Some(Entry(c.name(p), s.now / 1000, s.now)), leaders := s.leaders[p := s.now],
       waiting := s.waiting - {p})
  }

  ghost predicate Enabled(c: Config, s: State, a: Action) {
    match a
    case Tick(d) => forall p :: p in s.leaders ==> s.now + d - s.leaders[p] <= c.gap
    case Claim(p) => p !in s.leaders
    case ClaimUnanswered(p) => p !in s.leaders
    case Read(p) => c.split && p !in s.leaders && !Healthy(c, s, p)
    case Write(p) => p in s.waiting
    case ReadFails(p) => c.flaky && p !in s.leaders
    case Renew(p) => p in s.leaders
    case Stop(p) => true
    case Expire => s.entry.Some? && s.now - s.entry.value.at >= REGISTRY_TTL
  }

  function After(c: Config, s: State, a: Action): State {
    match a
    case Tick(d) => s.(now := s.now + d)
    case Claim(p) => if Healthy(c, s, p) then s else Put(c, s, p)
    case ClaimUnanswered(p) => if Healthy(c, s, p) then s else s.(entry := Put(c, s, p).entry)
    case Read(p) => s.(waiting := s.waiting + {p})
    case Write(p) => Put(c, s, p)
    case ReadFails(p) => Put(c, s, p)
    case Renew(p) => Put(c, s, p)
    case Stop(p) => s.(leaders := s.leaders - {p}, waiting := s.waiting - {p})
    case Expire => s.(entry := None)
  }

  predicate Initial(s: State) {
    s.now >= 0 && s.leaders == map[] && s.waiting == {}
  }

  ghost predicate IsRun(c: Config, actions: seq<Action>, states: seq<State>) {
    && |states| == |actions| + 1 && Initial(states[0])
    && forall i :: 0 <= i < |actions| ==>
         Enabled(c, states[i], actions[i]) && states[i + 1] == After(c, states[i], actions[i])
  }

  ghost predicate Reachable(c: Config, s: State) {
    exists actions, states :: IsRun(c, actions, states) && states[|actions|] == s
  }

  ghost predicate OneLeader(s: State) {
    forall p, q :: p in s.leaders && q in s.leaders ==> p == q
  }

  ghost predicate Safe(c: Config) {
    forall s :: Reachable(c, s) ==> OneLeader(s)
  }

  /** Everything the protocol takes for granted: instance ids differ, claims are atomic, reads do not
      fail, and the renewals land in time: a whole second within the ttl, for the entry's time is
      cut to seconds, and within the bucket's own. */
  ghost predicate Sound(c: Config) {
    && (forall p, q :: c.name(p) == c.name(q) ==> p == q)
    && !c.split && !c.flaky && c.gap <= c.ttl - 1000 && c.gap < REGISTRY_TTL
  }

  // ---- safety ----

  ghost predicate Inv(c: Config, s: State) {
    && s.now >= 0 && s.waiting == {}
    && forall p :: p in s.leaders ==>
         && s.now - s.leaders[p] <= c.gap
         && s.entry == Some(Entry(c.name(p), s.leaders[p] / 1000, s.leaders[p]))
  }

  lemma StepKeepsInv(c: Config, s: State, a: Action)
    requires Sound(c) && Inv(c, s) && Enabled(c, s, a)
    ensures Inv(c, After(c, s, a))
  {
    if (a.Claim? || a.ClaimUnanswered?) && !Healthy(c, s, a.p) {
      if q :| q in s.leaders {
        HeldIsHealthy(c, s, q, a.p);
      }
    }
  }

  /** A leader that renews in time keeps everyone else out. */
  lemma HeldIsHealthy(c: Config, s: State, q: int, p: int)
    requires Sound(c) && Inv(c, s) && q in s.leaders && p != q
    ensures Healthy(c, s, p)
  {
    assert s.leaders[q] - 1000 * (s.leaders[q] / 1000) <= 999;
  }

  lemma {:induction false} RunKeepsInv(c: Config, actions: seq<Action>, states: seq<State>, n: nat)
    requires Sound(c) && IsRun(c, actions, states) && n <= |actions|
    ensures Inv(c, states[n])
  {
    if n > 0 {
      RunKeepsInv(c, actions, states, n - 1);
      StepKeepsInv(c, states[n - 1], actions[n - 1]);
    }
  }

  lemma SoundIsSafe(c: Config)
    requires Sound(c)
    ensures Safe(c)
  {
    forall s | Reachable(c, s) ensures OneLeader(s) {
      var actions, states :| IsRun(c, actions, states) && states[|actions|] == s;
      RunKeepsInv(c, actions, states, |actions|);
    }
  }

  // ---- and only then ----

  lemma Extend(c: Config, s: State, a: Action)
    requires Reachable(c, s) && Enabled(c, s, a)
    ensures Reachable(c, After(c, s, a))
  {
    var actions, states :| IsRun(c, actions, states) && states[|actions|] == s;
    assert IsRun(c, actions + [a], states + [After(c, s, a)]);
  }

  /** A first process claims, late in a second. */
  lemma FirstClaim(c: Config, p: int) returns (s: State)
    ensures Reachable(c, s)
    ensures s == State(999, Some(Entry(c.name(p), 0, 999)), map[p := 999], {})
  {
    var start := State(999, None, map[], {});
    var actions: seq<Action> := [];
    assert IsRun(c, actions, [start]) && [start][|actions|] == start;
    Extend(c, start, Claim(p));
    s := After(c, start, Claim(p));
  }

  lemma TwoLeaders(c: Config, s: State, p: int, q: int)
    requires Reachable(c, s) && p != q && p in s.leaders && q in s.leaders
    ensures !Safe(c)
  {
    assert !OneLeader(s);
  }

  lemma SharedNameUnsafe(c: Config, p: int, q: int)
    requires p != q && c.name(p) == c.name(q)
    ensures !Safe(c)
  {
    var s := FirstClaim(c, p);
    Extend(c, s, Claim(q));
    TwoLeaders(c, After(c, s, Claim(q)), p, q);
  }

  lemma FlakyUnsafe(c: Config)
    requires c.flaky
    ensures !Safe(c)
  {
    var s := FirstClaim(c, 0);
    Extend(c, s, ReadFails(1));
    TwoLeaders(c, After(c, s, ReadFails(1)), 0, 1);
  }

  lemma SplitUnsafe(c: Config)
    requires c.split
    ensures !Safe(c)
  {
    var start := State(999, None, map[], {});
    var actions: seq<Action> := [];
    assert IsRun(c, actions, [start]) && [start][|actions|] == start;
    Extend(c, start, Read(0));
    var a := After(c, start, Read(0));
    Extend(c, a, Read(1));
    var b := After(c, a, Read(1));
    Extend(c, b, Write(0));
    var d := After(c, b, Write(0));
    Extend(c, d, Write(1));
    TwoLeaders(c, After(c, d, Write(1)), 0, 1);
  }

  lemma LateUnsafe(c: Config)
    requires c.gap > c.ttl - 1000
    ensures !Safe(c)
  {
    var s := FirstClaim(c, 0);
    Extend(c, s, Tick(c.gap));
    var late := After(c, s, Tick(c.gap));
    assert !Healthy(c, late, 1);
    Extend(c, late, Claim(1));
    TwoLeaders(c, After(c, late, Claim(1)), 0, 1);
  }

  lemma ForgottenUnsafe(c: Config)
    requires c.gap >= REGISTRY_TTL
    ensures !Safe(c)
  {
    var s := FirstClaim(c, 0);
    Extend(c, s, Tick(c.gap));
    var late := After(c, s, Tick(c.gap));
    Extend(c, late, Expire);
    var gone := After(c, late, Expire);
    Extend(c, gone, Claim(1));
    TwoLeaders(c, After(c, gone, Claim(1)), 0, 1);
  }

  /** At most one leader in every reachable state exactly when the protocol gets all it takes for
      granted. The code's own claim is split and goes on after a failed read, and two hosts without
      a HOSTNAME share one id. */
  lemma SafeIffSound(c: Config)
    ensures Safe(c) <==> Sound(c)
  {
    if Sound(c) {
      SoundIsSafe(c);
    } else if p, q :| c.name(p) == c.name(q) && p != q {
      SharedNameUnsafe(c, p, q);
    } else if c.split {
      SplitUnsafe(c);
    } else if c.flaky {
      FlakyUnsafe(c);
    } else if c.gap > c.ttl - 1000 {
      LateUnsafe(c);
    } else {
      ForgottenUnsafe(c);
    }
  }

  // ---- how long a lease lasts ----

  /** A lease written and not renewed keeps every other instance out for the ttl but a second, and is free
      for the next one to claim from the ttl on. */
  lemma LeaseTerm(c: Config, s: State, a: Action, d: nat, q: int)
    requires s.now >= 0 && (a.Renew? || a.Write? || (a.Claim? && !Healthy(c, s, a.p)))
    requires c.name(q) != c.name(a.p) && q != a.p && q !in s.leaders
    ensures var late := After(c, After(c, s, a), Tick(d));
            var claimed := After(c, late, Claim(q));
            && a.p in late.leaders
            && (d <= c.ttl - 1000 ==> claimed == late)
            && (d >= c.ttl ==> q in claimed.leaders && claimed.entry == Some(Entry(c.name(q), late.now / 1000, late.now)))
  {
    SecondsLag(s.now);
  }

  lemma SecondsLag(t: int)
    requires t >= 0
    ensures 0 <= t - 1000 * (t / 1000) <= 999
  {
  }

  /** A leader never notices that it lost the lease: it stays one until it stops. */
  lemma {:induction false} LeaderStays(c: Config, actions: seq<Action>, states: seq<State>, i: nat, j: nat, p: int)
    requires IsRun(c, actions, states) && i <= j <= |actions| && p in states[i].leaders
    requires forall k :: i <= k < j ==> actions[k] != Stop(p)
    ensures p in states[j].leaders
  {
    if i < j {
      LeaderStays(c, actions, states, i, j - 1, p);
      assert states[j] == After(c, states[j - 1], actions[j - 1]);
    }
  }

  /** So two leaders remain two, whatever the bucket says and whoever renews, until one of them stops. */
  lemma SplitBrainPersists(
      c: Config, actions: seq<Action>, states: seq<State>, i: nat, j: nat, p: int, q: int)
    requires IsRun(c, actions, states) && i <= j <= |actions| && p != q
    requires p in states[i].leaders && q in states[i].leaders
    ensures !OneLeader(states[j]) || exists k :: i <= k < j && actions[k] in {Stop(p), Stop(q)}
  {
    if forall k :: i <= k < j ==> actions[k] !in {Stop(p), Stop(q)} {
      LeaderStays(c, actions, states, i, j, p);
      LeaderStays(c, actions, states, i, j, q);
    }
  }
}
