/** The probe-duration histogram: one slot is incremented per observation, and rendering sums the
    slots up to the cumulative counts of the exposition format. */
module Histogram {
  import opened Strings

  const BUCKETS: seq<real> := [0.05, 0.1, 0.25, 0.5, 1.0, 2.5, 5.0, 10.0, 20.0, 45.0]

  const SLOTS := 11

  /** The slot of an observation: the first bucket, from `i` on, that it fits, or the one past all. */
  function SlotOf(seconds: real, i: nat): (slot: nat)
    requires i <= |BUCKETS|
    ensures slot < SLOTS
    decreases |BUCKETS| - i
  {
    if i == |BUCKETS| || seconds <= BUCKETS[i] then i else SlotOf(seconds, i + 1)
  }

  function Counts(observed: seq<real>): (h: seq<nat>)
    ensures |h| == SLOTS
  {
    if observed == [] then seq(SLOTS, _ => 0)
    else
      var n := |observed| - 1;
      var h := Counts(observed[..n]);
      h[SlotOf(observed[n], 0) := h[SlotOf(observed[n], 0)] + 1]
  }

  function Sum(observed: seq<real>): real {
    if observed == [] then 0.0 else Sum(observed[..|observed| - 1]) + observed[|observed| - 1]
  }

  /** The observations at or below a bound. */
  function AtMost(observed: seq<real>, bound: real): nat {
    if observed == [] then 0
    else AtMost(observed[..|observed| - 1], bound) + if observed[|observed| - 1] <= bound then 1 else 0
  }

  function Cumulative(h: seq<nat>, k: nat): nat
    requires k <= |h|
  {
    if k == 0 then 0 else Cumulative(h, k - 1) + h[k - 1]
  }

  lemma Snoc(observed: seq<real>, seconds: real)
    ensures Sum(observed + [seconds]) == Sum(observed) + seconds
    ensures var (h, slot) := (Counts(observed), SlotOf(seconds, 0));
            Counts(observed + [seconds]) == h[slot := h[slot] + 1]
  {
    assert (observed + [seconds])[..|observed|] == observed;
  }

  // ---- slots add up to bounds ----

  lemma {:induction false} SlotFits(seconds: real, i: nat, k: nat)
    requires i <= k < |BUCKETS| && (i == 0 || BUCKETS[i - 1] < seconds)
    ensures SlotOf(seconds, i) <= k <==> seconds <= BUCKETS[k]
    decreases |BUCKETS| - i
  {
    Ascending(i, k);
    if seconds > BUCKETS[i] {
      if i < k {
        SlotFits(seconds, i + 1, k);
      } else {
        SlotBeyond(seconds, i + 1);
      }
    }
  }

  lemma {:induction false} SlotBeyond(seconds: real, i: nat)
    requires i <= |BUCKETS|
    ensures SlotOf(seconds, i) >= i
    decreases |BUCKETS| - i
  {
    if i < |BUCKETS| && seconds > BUCKETS[i] {
      SlotBeyond(seconds, i + 1);
    }
  }

  lemma {:induction false} Ascending(i: nat, k: nat)
    requires i <= k < |BUCKETS|
    ensures BUCKETS[i] <= BUCKETS[k]
    decreases k - i
  {
    if i < k {
      Ascending(i, k - 1);
    }
  }

  lemma {:induction false} CumulativeUpdate(h: seq<nat>, slot: nat, k: nat)
    requires slot < |h| && k <= |h|
    ensures Cumulative(h[slot := h[slot] + 1], k) == Cumulative(h, k) + if slot < k then 1 else 0
  {
    if k > 0 {
      CumulativeUpdate(h, slot, k - 1);
    }
  }

  lemma {:induction false} CumulativeZero(k: nat)
    requires k <= SLOTS
    ensures Cumulative(seq(SLOTS, _ => 0), k) == 0
  {
    if k > 0 {
      CumulativeZero(k - 1);
    }
  }

  /** The first k + 1 slots together hold the observations at or below bound k; all slots together
      hold all observations. */
  lemma {:induction false} CumulativeIsAtMost(observed: seq<real>, k: nat)
    requires k < SLOTS
    ensures Cumulative(Counts(observed), k + 1) == if k < |BUCKETS| then AtMost(observed, BUCKETS[k]) else |observed|
  {
    if observed == [] {
      CumulativeZero(k + 1);
    } else {
      var n := |observed| - 1;
      CumulativeIsAtMost(observed[..n], k);
      CumulativeUpdate(Counts(observed[..n]), SlotOf(observed[n], 0), k + 1);
      if k < |BUCKETS| {
        SlotFits(observed[n], 0, k);
      }
    }
  }

  lemma {:induction false} AtMostMonotone(observed: seq<real>, a: real, b: real)
    requires a <= b
    ensures AtMost(observed, a) <= AtMost(observed, b) <= |observed|
  {
    if observed != [] {
      AtMostMonotone(observed[..|observed| - 1], a, b);
    }
  }

  // ---- the registry ----

  /** The lines of one stage. */
  datatype Family = Family(stage: string, buckets: seq<nat>, infinite: nat, sum: real, count: nat)

  /** What the exposition format asks of a histogram of these observations. */
  predicate IsHistogram(f: Family, observed: seq<real>) {
    && |f.buckets| == |BUCKETS|
    && (forall i :: 0 <= i < |f.buckets| ==> f.buckets[i] == AtMost(observed, BUCKETS[i]))
    && f.infinite == f.count == |observed| && f.sum == Sum(observed)
  }

  /** Buckets never decrease, and +Inf bounds them all. */
  lemma BucketsAscend(f: Family, observed: seq<real>, i: nat, j: nat)
    requires IsHistogram(f, observed) && i <= j < |BUCKETS|
    ensures f.buckets[i] <= f.buckets[j] <= f.infinite
  {
    Ascending(i, j);
    AtMostMonotone(observed, BUCKETS[i], BUCKETS[j]);
  }

  function StagesOf(families: seq<Family>): seq<string> {
    seq(|families|, i requires 0 <= i < |families| => families[i].stage)
  }

  /** The registry's three maps. */
  datatype Metrics = Metrics(counts: map<string, nat>, sums: map<string, real>, hists: map<string, seq<nat>>)

  predicate WellFormed(m: Metrics) {
    m.counts.Keys == m.sums.Keys == m.hists.Keys && forall s :: s in m.hists ==> |m.hists[s]| == SLOTS
  }

  function Get<V>(m: map<string, V>, stage: string, default: V): V {
    if stage in m then m[stage] else default
  }

  function Record(m: Metrics, stage: string, seconds: real): (m': Metrics)
    requires WellFormed(m)
    ensures WellFormed(m')
  {
    var h := Get(m.hists, stage, seq(SLOTS, _ => 0));
    var slot := SlotOf(seconds, 0);
    Metrics(
      m.counts[stage := Get(m.counts, stage, 0) + 1],
      m.sums[stage := Get(m.sums, stage, 0.0) + seconds],
      m.hists[stage := h[slot := h[slot] + 1]])
  }

  datatype Observation = Observation(stage: string, seconds: real)

  function Recorded(events: seq<Observation>): (m: Metrics)
    ensures WellFormed(m)
  {
    if events == [] then Metrics(map[], map[], map[])
    else
      var n := |events| - 1;
      Record(Recorded(events[..n]), events[n].stage, events[n].seconds)
  }

  /** The observations of one stage. */
  function Of(events: seq<Observation>, stage: string): seq<real> {
    if events == [] then []
    else
      var n := |events| - 1;
      Of(events[..n], stage) + if events[n].stage == stage then [events[n].seconds] else []
  }

  /** What the maps hold for a stage tells its observations. */
  predicate IsTally(m: Metrics, stage: string, observed: seq<real>)
    requires WellFormed(m)
  {
    && (stage in m.counts <==> observed != [])
    && Get(m.counts, stage, 0) == |observed| && Get(m.sums, stage, 0.0) == Sum(observed)
    && Get(m.hists, stage, seq(SLOTS, _ => 0)) == Counts(observed)
  }

  lemma RecordTally(m: Metrics, stage: string, observed: seq<real>, seconds: real)
    requires WellFormed(m) && IsTally(m, stage, observed)
    ensures IsTally(Record(m, stage, seconds), stage, observed + [seconds])
  {
    Snoc(observed, seconds);
  }

  lemma RecordElsewhere(m: Metrics, stage: string, other: string, observed: seq<real>, seconds: real)
    requires WellFormed(m) && IsTally(m, other, observed) && other != stage
    ensures IsTally(Record(m, stage, seconds), other, observed)
  {
  }

  /** After any sequence of observations, the maps tally each stage's own. */
  lemma {:induction false} RecordedTally(events: seq<Observation>, stage: string)
    ensures IsTally(Recorded(events), stage, Of(events, stage))
  {
    if events != [] {
      var n := |events| - 1;
      var m, observed := Recorded(events[..n]), Of(events[..n], stage);
      RecordedTally(events[..n], stage);
      if events[n].stage == stage {
        RecordTally(m, stage, observed, events[n].seconds);
      } else {
        RecordElsewhere(m, events[n].stage, stage, observed, events[n].seconds);
        assert Of(events, stage) == observed;
      }
    }
  }

  class Registry {
    var probeCount: map<string, nat>
    var probeSum: map<string, real>
    var probeHist: map<string, seq<nat>>

    function View(): Metrics
      reads this
    {
      Metrics(probeCount, probeSum, probeHist)
    }

    constructor ()
      ensures View() == Recorded([])
    {
      probeCount, probeSum, probeHist := map[], map[], map[];
    }

    method ProbeDuration(stage: string, seconds: real)
      requires WellFormed(View())
      modifies this
      ensures View() == Record(old(View()), stage, seconds)
    {
      probeCount := probeCount[stage := Get(probeCount, stage, 0) + 1];
      probeSum := probeSum[stage := Get(probeSum, stage, 0.0) + seconds];
      var h := Get(probeHist, stage, seq(SLOTS, _ => 0));
      label Counted:
      for i := 0 to |BUCKETS|
        invariant unchanged@Counted(this) && SlotOf(seconds, 0) == SlotOf(seconds, i)
      {
        if seconds <= BUCKETS[i] {
          h := h[i := h[i] + 1];
          probeHist := probeHist[stage := h];
          return;
        }
      }
      h := h[|BUCKETS| := h[|BUCKETS|] + 1];
      probeHist := probeHist[stage := h];
    }

    method RenderStage(stage: string, ghost events: seq<Observation>) returns (f: Family)
      requires View() == Recorded(events) && stage in probeCount
      ensures f.stage == stage && IsHistogram(f, Of(events, stage))
    {
      hide Recorded, Of, Sum;
      RecordedTally(events, stage);
      ghost var observed := Of(events, stage);
      var h := probeHist[stage];
      var cum := 0;
      var buckets := [];
      for i := 0 to |BUCKETS|
        invariant |buckets| == i && cum == Cumulative(h, i)
        invariant forall k :: 0 <= k < i ==> buckets[k] == AtMost(observed, BUCKETS[k])
      {
        cum := cum + h[i];
        CumulativeIsAtMost(observed, i);
        buckets := buckets + [cum];
      }
      CumulativeIsAtMost(observed, |BUCKETS|);
      cum := cum + h[|BUCKETS|];
      f := Family(stage, buckets, cum, probeSum[stage], probeCount[stage]);
    }

    method Stages() returns (stages: seq<string>)
      ensures Sorted(stages) && multiset(stages) == multiset(probeCount.Keys)
    {
      var keys: seq<string> := [];
      var remaining := probeCount.Keys;
      while remaining != {}
        invariant remaining <= probeCount.Keys && multiset(keys) == multiset(probeCount.Keys - remaining)
      {
        var s :| s in remaining;
        assert probeCount.Keys - (remaining - {s}) == (probeCount.Keys - remaining) + {s};
        remaining := remaining - {s};
        keys := keys + [s];
      }
      assert probeCount.Keys - {} == probeCount.Keys;
      stages := SortStrings(keys);
    }

    /** After any sequence of observations: every observed stage once, in order, each with the
        histogram of its own observations. */
    method Render(ghost events: seq<Observation>) returns (families: seq<Family>)
      requires View() == Recorded(events)
      ensures Sorted(StagesOf(families))
      ensures multiset(StagesOf(families)) == multiset(set e | e in events :: e.stage)
      ensures forall f <- families :: IsHistogram(f, Of(events, f.stage))
    {
      var stages := Stages();
      families := [];
      for i := 0 to |stages|
        invariant |families| == i
        invariant forall j :: 0 <= j < i ==>
                    families[j].stage == stages[j] && IsHistogram(families[j], Of(events, stages[j]))
      {
        assert stages[i] in multiset(stages);
        var f := RenderStage(stages[i], events);
        families := families + [f];
      }
      assert StagesOf(families) == stages;
      StagesRecorded(events);
    }
  }

  lemma {:induction false} StagesRecorded(events: seq<Observation>)
    ensures Recorded(events).counts.Keys == set e | e in events :: e.stage
  {
    if events != [] {
      var n := |events| - 1;
      StagesRecorded(events[..n]);
      assert events == events[..n] + [events[n]];
    }
  }
}
