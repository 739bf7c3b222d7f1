/** When the coordinator publishes a new version: every period, or when the alive set has changed
    enough since the last version. */
module PublishLoop {
  import opened Basics

  /** What the loop remembers; a restart recovers the time of the newest stored version only. */
  datatype Memo = Memo(lastPublish: Option<int>, lastSet: Option<set<int>>)

  /** How publishing a version ended, had it been started: the row may be stored although the
      announcement failed. */
  datatype Attempt =
    | Refused
    | StoredOnly(createdAt: int)
    | Published(createdAt: int)

  function SymmetricDifference(a: set<int>, b: set<int>): set<int> {
    (a - b) + (b - a)
  }

  predicate PeriodDue(period: int, m: Memo, now: int) {
    m.lastPublish.None? || now - m.lastPublish.value >= period
  }

  /** At least 21 in 100: the source divides before it compares with 20. */
  predicate Changed(m: Memo, alive: set<int>) {
    && m.lastSet.Some? && m.lastSet.value != {}
    && 100 * |SymmetricDifference(alive, m.lastSet.value)| >= 21 * |m.lastSet.value|
  }

  predicate Wanted(period: int, m: Memo, now: int, alive: set<int>) {
    alive != {} && (PeriodDue(period, m, now) || Changed(m, alive))
  }

  function Ticked(period: int, m: Memo, now: int, alive: set<int>, a: Attempt): Memo {
    if Wanted(period, m, now, alive) && a.Published? then Memo(Some(now), Some(alive)) else m
  }

  function IdsOf(nodes: seq<int>): set<int> {
    set id | id in nodes
  }

  /** The elements of one set that another lacks, counted in whatever order the set yields them. */
  method CountMissing<T(==)>(ids: set<T>, known: set<T>) returns (n: nat)
    ensures n == |ids - known|
  {
    n := 0;
    var remaining := ids;
    assert ids - known - ids == {};
    while remaining != {}
      invariant remaining <= ids && n == |ids - known - remaining|
    {
      var id :| id in remaining;
      ghost var seen := ids - known - remaining;
      remaining := remaining - {id};
      assert ids - known - remaining == if id in known then seen else seen + {id};
      if id !in known {
        n := n + 1;
      }
    }
    assert ids - known - {} == ids - known;
  }

  lemma DifferenceSize(a: set<int>, b: set<int>)
    ensures |SymmetricDifference(a, b)| == |a - b| + |b - a|
  {
    assert (a - b) !! (b - a);
  }

  lemma IntegerThreshold(diff: nat, size: nat)
    requires size > 0
    ensures diff * 100 / size > 20 <==> 100 * diff >= 21 * size
  {
    var q := diff * 100 / size;
    QuotientBounds(diff * 100, size);
    if q >= 21 {
      Scaled(size, 21, q);
    } else {
      Scaled(size, q, 20);
    }
  }

  lemma QuotientBounds(n: nat, size: nat)
    requires size > 0
    ensures size * (n / size) <= n < size * (n / size) + size
  {
  }

  lemma Scaled(size: nat, a: nat, b: nat)
    requires a <= b
    ensures size * a <= size * b
  {
  }

  method HasChanged(alive: set<int>, last: set<int>) returns (changed: bool)
    requires last != {}
    ensures changed <==> 100 * |SymmetricDifference(alive, last)| >= 21 * |last|
  {
    var added := CountMissing(alive, last);
    var removed := CountMissing(last, alive);
    var diff := added + removed;
    changed := diff * 100 / |last| > 20;
    DifferenceSize(alive, last);
    IntegerThreshold(diff, |last|);
  }

  class Publisher {
    const period: int
    var lastPublish: Option<int>
    var lastSet: Option<set<int>>

    function View(): Memo
      reads this
    {
      Memo(lastPublish, lastSet)
    }

    constructor (period: int, stored: Option<int>)
      ensures this.period == period && View() == Memo(stored, None)
    {
      this.period, lastPublish, lastSet := period, stored, None;
    }

    /** One tick over the listed alive nodes; `attempt` is how a publication would end. */
    method Tick(now: int, nodes: seq<int>, attempt: Attempt) returns (tried: bool)
      modifies this
      ensures View() == Ticked(period, old(View()), now, IdsOf(nodes), attempt)
      ensures tried <==> Wanted(period, old(View()), now, IdsOf(nodes))
    {
      if |nodes| == 0 {
        return false;
      }
      var alive: set<int> := {};
      for i := 0 to |nodes|
        invariant alive == IdsOf(nodes[..i])
      {
        alive := alive + {nodes[i]};
      }
      assert nodes[..|nodes|] == nodes && nodes[0] in alive;
      var periodDue := lastPublish.None? || now - lastPublish.value >= period;
      var changed := false;
      if lastSet.Some? && |lastSet.value| > 0 {
        changed := HasChanged(alive, lastSet.value);
      }
      if !periodDue && !changed {
        return false;
      }
      if attempt.Published? {
        lastPublish, lastSet := Some(now), Some(alive);
      }
      return true;
    }
  }

  // ---- runs ----

  datatype Publication = Publication(at: int, ids: set<int>)

  /** `log` is every version announced; `mark` its length at the last restart; `stored` the time of
      the newest stored version. */
  datatype State = State(memo: Memo, log: seq<Publication>, mark: nat, stored: Option<int>)

  datatype Event =
    | Tick(now: int, alive: set<int>, attempt: Attempt)
    | ListFails
    | Restart(read: bool)

  function After(period: int, s: State, e: Event): State {
    match e
    case Tick(now, alive, attempt) =>
      var wanted := Wanted(period, s.memo, now, alive);
      s.(memo := Ticked(period, s.memo, now, alive, attempt),
         log := if wanted && attempt.Published? then s.log + [Publication(now, alive)] else s.log,
         stored := if wanted && !attempt.Refused? then Some(attempt.createdAt) else s.stored)
    case ListFails => s
    // the time of the newest stored version, unless reading it fails
    case Restart(read) => s.(memo := Memo(if read then s.stored else None, None), mark := |s.log|)
  }

  ghost predicate IsRun(period: int, events: seq<Event>, states: seq<State>) {
    && |states| == |events| + 1
    && states[0] == State(Memo(None, None), [], 0, None)
    && forall i :: 0 <= i < |events| ==> states[i + 1] == After(period, states[i], events[i])
  }

  /** The loop remembers exactly the last version it announced since the restart. */
  predicate Remembers(s: State) {
    && s.mark <= |s.log|
    && (forall i :: 0 <= i < |s.log| ==> s.log[i].ids != {})
    && if s.mark == |s.log| then s.memo.lastSet == None
       else var last := s.log[|s.log| - 1]; s.memo == Memo(Some(last.at), Some(last.ids))
  }

  /** The time a restart recovers: that of the newest version stored before it, if it could be read. Before
      the first restart there is none. */
  function Recovered(events: seq<Event>, states: seq<State>, n: nat): Option<int>
    requires n <= |events| < |states|
  {
    if n == 0 then None
    else if events[n - 1].Restart? then (if events[n - 1].read then states[n - 1].stored else None)
    else Recovered(events, states, n - 1)
  }

  lemma {:induction false} RunRemembers(period: int, events: seq<Event>, states: seq<State>, n: nat)
    requires IsRun(period, events, states) && n <= |events|
    ensures Remembers(states[n])
    ensures states[n].mark == |states[n].log| ==> states[n].memo.lastPublish == Recovered(events, states, n)
  {
    if n > 0 {
      RunRemembers(period, events, states, n - 1);
      assert states[n] == After(period, states[n - 1], events[n - 1]);
    }
  }

  /** There is reason to announce a new version: something is alive, and the last time remembered is a
      period ago or missing, or 21 in 100 of the nodes announced last since the restart have come or
      gone. */
  predicate HasCause(period: int, s: State, now: int, alive: set<int>) {
    && alive != {}
    && (|| s.memo.lastPublish.None?
        || now >= s.memo.lastPublish.value + period
        || (s.mark < |s.log| &&
            100 * |SymmetricDifference(alive, s.log[|s.log| - 1].ids)| >= 21 * |s.log[|s.log| - 1].ids|))
  }

  /** Over every run: a tick announces a version exactly when there is cause and nothing goes wrong, it
      announces exactly the nodes alive, a version is stored exactly when there is cause and the store
      does not refuse, and nothing else announces or stores any. */
  lemma AnnouncedIff(period: int, events: seq<Event>, states: seq<State>, n: nat)
    requires IsRun(period, events, states) && n < |events|
    ensures var s, e, s' := states[n], events[n], states[n + 1];
            && (s'.log != s.log <==> e.Tick? && e.attempt.Published? && HasCause(period, s, e.now, e.alive))
            && (s'.log != s.log ==> s'.log == s.log + [Publication(e.now, e.alive)])
            && s'.stored == if e.Tick? && !e.attempt.Refused? && HasCause(period, s, e.now, e.alive)
                            then Some(e.attempt.createdAt) else s.stored
  {
    RunRemembers(period, events, states, n);
    assert states[n + 1] == After(period, states[n], events[n]);
  }

  /** Two announcements in a row are a period apart, or 21 in 100 of the nodes differ. */
  predicate Spaced(period: int, p: Publication, q: Publication) {
    q.at >= p.at + period || 100 * |SymmetricDifference(q.ids, p.ids)| >= 21 * |p.ids|
  }

  /** Since the restart, no two versions follow each other without cause, and none is empty. */
  lemma {:induction false} AnnouncementsSpaced(period: int, events: seq<Event>, states: seq<State>, n: nat, i: nat)
    requires IsRun(period, events, states) && n <= |events| && states[n].mark < i < |states[n].log|
    ensures Spaced(period, states[n].log[i - 1], states[n].log[i]) && states[n].log[i].ids != {}
  {
    if n > 0 {
      RunRemembers(period, events, states, n - 1);
      AnnouncedIff(period, events, states, n - 1);
      assert states[n] == After(period, states[n - 1], events[n - 1]);
      if i < |states[n - 1].log| && states[n].mark == states[n - 1].mark {
        AnnouncementsSpaced(period, events, states, n - 1, i);
      }
    }
  }

  /** The last announcement is younger than the period, and if there is one since the restart, fewer
      than 21 in 100 of its nodes have come or gone. */
  predicate StillFresh(period: int, s: State, now: int, alive: set<int>) {
    && s.memo.lastPublish.Some? && now - s.memo.lastPublish.value < period
    && (s.mark < |s.log| ==>
          var last := s.log[|s.log| - 1];
          && last.at == s.memo.lastPublish.value
          && 100 * |SymmetricDifference(alive, last.ids)| < 21 * |last.ids|)
  }

  /** After every tick that found something alive and met no error, the current set was announced just
      now, or what was announced last is still fresh. */
  lemma FreshAfterTick(period: int, events: seq<Event>, states: seq<State>, n: nat)
    requires IsRun(period, events, states) && n < |events|
    requires events[n].Tick? && events[n].alive != {} && events[n].attempt.Published?
    ensures
      || states[n + 1].log == states[n].log + [Publication(events[n].now, events[n].alive)]
      || (states[n + 1] == states[n] && StillFresh(period, states[n], events[n].now, events[n].alive))
  {
    RunRemembers(period, events, states, n);
    assert states[n + 1] == After(period, states[n], events[n]);
  }

  /** The documented threshold is more than 20 in 100; the two differ exactly in between. */
  lemma ThresholdDiffers(m: Memo, alive: set<int>)
    requires m.lastSet.Some? && m.lastSet.value != {}
    ensures var (d, n) := (|SymmetricDifference(alive, m.lastSet.value)|, |m.lastSet.value|);
            (Changed(m, alive) <==> 100 * d > 20 * n) <==> !(20 * n < 100 * d < 21 * n)
  {
  }

  /** Five nodes gone out of twenty-four are over 20 in 100 and pass unnoticed. */
  lemma FiveOfTwentyFour(m: Memo, alive: set<int>)
    requires m.lastSet.Some? && |m.lastSet.value| == 24 && alive < m.lastSet.value && |alive| == 19
    ensures !Changed(m, alive) && 100 * |SymmetricDifference(alive, m.lastSet.value)| > 20 * |m.lastSet.value|
  {
    DifferenceSize(alive, m.lastSet.value);
    assert alive - m.lastSet.value == {};
    assert |m.lastSet.value - alive| == 5 by {
      assert m.lastSet.value == alive + (m.lastSet.value - alive);
    }
  }
}
