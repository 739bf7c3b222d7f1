/** Which consumer a published job reaches: subjects, filters, and who configures the validator's
    durable consumer. */
module Subjects {
  import opened Basics
  import opened Strings

  function Dotted(a: string, b: string, rest: string): string {
    a + "." + (b + "." + rest)
  }

  /** The subject a job is published on; none for an unknown stage. */
  function JobsSubject(stage: string, vantage: string): Option<string> {
    if stage == "L0" then Some(Dotted("jobs", "l0", "cloud"))
    else if stage == "L1" then Some(Dotted("jobs", "l1", "cloud"))
    else if stage == "L2" then Some(Dotted("jobs", "l2", "cloud"))
    else if stage == "VAL" then Some(Dotted("jobs", "validator", vantage))
    else None
  }

  /** The filter a validator worker asks for. */
  function WorkerFilter(vantage: string): string {
    Dotted("jobs", "validator", vantage)
  }

  /** The filter the coordinator configures for a validator on each of its heartbeats. */
  function CoordinatorFilter(vantage: string): string {
    Dotted("jobs", "validator", vantage) + "." + ">"
  }

  /** Token by token; `*` stands for one token, a final `>` for one or more. */
  predicate Matches(filter: seq<string>, subject: seq<string>) {
    if filter == [] then subject == []
    else if filter == [">"] then subject != []
    else
      && subject != [] && (filter[0] == "*" || filter[0] == subject[0])
      && Matches(filter[1..], subject[1..])
  }

  predicate Delivers(filter: string, subject: string) {
    Matches(Split(filter, '.'), Split(subject, '.'))
  }

  predicate Literal(tokens: seq<string>) {
    forall t <- tokens :: t != "*" && t != ">"
  }

  // ---- matching ----

  lemma LiteralTail(tokens: seq<string>)
    requires tokens != [] && Literal(tokens)
    ensures Literal(tokens[1..]) && tokens[0] != "*" && tokens[0] != ">"
  {
    forall t <- tokens[1..] ensures t != "*" && t != ">" {
      assert t in tokens;
    }
    assert tokens[0] in tokens;
  }

  lemma {:induction false} LiteralMatches(filter: seq<string>, subject: seq<string>)
    requires Literal(filter)
    ensures Matches(filter, subject) <==> filter == subject
  {
    if filter != [] {
      LiteralTail(filter);
    }
    if filter != [] && subject != [] {
      LiteralMatches(filter[1..], subject[1..]);
      assert filter == [filter[0]] + filter[1..] && subject == [subject[0]] + subject[1..];
    }
  }

  lemma {:induction false} TailMatches(filter: seq<string>, subject: seq<string>)
    requires Literal(filter)
    ensures Matches(filter + [">"], subject) <==> filter < subject
  {
    var f := filter + [">"];
    if filter == [] {
      assert f == [">"];
    } else {
      LiteralTail(filter);
      assert f[0] == filter[0] && f[1..] == filter[1..] + [">"];
      if subject != [] {
        TailMatches(filter[1..], subject[1..]);
        assert filter == [filter[0]] + filter[1..] && subject == [subject[0]] + subject[1..];
      }
    }
  }

  lemma {:induction false} SplitAppend(s: string, last: string)
    requires '.' !in last
    ensures Split(s + "." + last, '.') == Split(s, '.') + [last]
    decreases |s|
  {
    var i := IndexByte(s, '.');
    if i < 0 {
      SplitStep(s, last, '.');
      IndexByteAbsent(last);
    } else {
      var p, rest := s[..i], s[i + 1..];
      assert s == p + ['.'] + rest;
      SplitAppend(rest, last);
      Regroup(p, rest, last);
      SplitStep(p, rest + "." + last, '.');
    }
  }

  lemma Regroup(p: string, rest: string, last: string)
    ensures (p + ['.'] + rest) + "." + last == p + ['.'] + (rest + "." + last)
  {
  }

  lemma IndexByteAbsent(s: string)
    requires '.' !in s
    ensures Split(s, '.') == [s]
  {
  }

  lemma DottedTokens(a: string, b: string, rest: string)
    requires '.' !in a && '.' !in b
    ensures Split(Dotted(a, b, rest), '.') == [a, b] + Split(rest, '.')
  {
    SplitStep(a, b + "." + rest, '.');
    SplitStep(b, rest, '.');
  }

  lemma ValidatorTokens(vantage: string)
    ensures Split(WorkerFilter(vantage), '.') == ["jobs", "validator"] + Split(vantage, '.')
    ensures Split(CoordinatorFilter(vantage), '.') == ["jobs", "validator"] + Split(vantage, '.') + [">"]
  {
    DottedTokens("jobs", "validator", vantage);
    SplitAppend(WorkerFilter(vantage), ">");
  }

  lemma ValidatorLiteral(tokens: seq<string>)
    requires Literal(tokens)
    ensures Literal(["jobs", "validator"] + tokens)
  {
  }

  // ---- who gets what ----

  /** The filter a validator worker asks for delivers its own vantage's validation jobs and no other's. */
  lemma WorkerFilterDelivers(v: string, w: string)
    requires Literal(Split(v, '.'))
    ensures Delivers(WorkerFilter(v), JobsSubject("VAL", w).value) <==> v == w
  {
    ValidatorTokens(v);
    ValidatorTokens(w);
    ValidatorLiteral(Split(v, '.'));
    LiteralMatches(["jobs", "validator"] + Split(v, '.'), ["jobs", "validator"] + Split(w, '.'));
    if Delivers(WorkerFilter(v), JobsSubject("VAL", w).value) {
      assert Split(v, '.') == (["jobs", "validator"] + Split(v, '.'))[2..] == Split(w, '.');
      JoinOfSplit(v, '.');
      JoinOfSplit(w, '.');
    }
  }

  /** The filter the coordinator configures delivers only jobs of vantages whose name extends this
      one by further tokens; so never the vantage's own. */
  lemma CoordinatorFilterDelivers(v: string, w: string)
    requires Literal(Split(v, '.'))
    ensures Delivers(CoordinatorFilter(v), JobsSubject("VAL", w).value) <==> Split(v, '.') < Split(w, '.')
  {
    ValidatorTokens(v);
    ValidatorTokens(w);
    ValidatorLiteral(Split(v, '.'));
    TailMatches(["jobs", "validator"] + Split(v, '.'), ["jobs", "validator"] + Split(w, '.'));
    PrefixOfTail(["jobs", "validator"], Split(v, '.'), Split(w, '.'));
  }

  lemma PrefixOfTail(p: seq<string>, a: seq<string>, b: seq<string>)
    ensures p + a < p + b <==> a < b
  {
    assert (p + a)[|p|..] == a && (p + b)[|p|..] == b;
    if a < b {
      assert p + b == p + a + b[|a|..];
    }
  }

  lemma FinalToken(a: string, b: string, c: string)
    requires '.' !in a && '.' !in b && '.' !in c
    ensures Split(Dotted(a, b, c), '.') == [a, b, c]
  {
    DottedTokens(a, b, c);
    IndexByteAbsent(c);
  }

  /** No validator filter delivers a subject of another family. */
  lemma ValidatorsGetOnlyTheirs(v: string, subject: string)
    requires Literal(Split(v, '.')) && |Split(subject, '.')| >= 2 && Split(subject, '.')[1] != "validator"
    ensures !Delivers(WorkerFilter(v), subject) && !Delivers(CoordinatorFilter(v), subject)
  {
    var f := ["jobs", "validator"] + Split(v, '.');
    ValidatorTokens(v);
    ValidatorLiteral(Split(v, '.'));
    LiteralMatches(f, Split(subject, '.'));
    TailMatches(f, Split(subject, '.'));
    assert f[1] == "validator";
  }

  /** The filters with which the cloud workers consume the three stages that are theirs. */
  function CloudFilter(stage: string): string
    requires stage in {"L0", "L1", "L2"}
  {
    if stage == "L0" then Dotted("jobs", "l0", ">")
    else if stage == "L1" then Dotted("jobs", "l1", ">")
    else Dotted("jobs", "l2", ">")
  }

  /** The second token of the subject of a stage. */
  function FamilyOf(stage: string): string
    requires stage in {"L0", "L1", "L2", "VAL"}
  {
    if stage == "L0" then "l0" else if stage == "L1" then "l1" else if stage == "L2" then "l2" else "validator"
  }

  lemma FamiliesDiffer(a: string, b: string)
    requires a in {"L0", "L1", "L2", "VAL"} && b in {"L0", "L1", "L2", "VAL"}
    ensures FamilyOf(a) == FamilyOf(b) <==> a == b
    ensures '.' !in FamilyOf(a) && FamilyOf(a) != "*" && FamilyOf(a) != ">" && '.' !in "jobs" && '.' !in ">"
  {
  }

  lemma SubjectTokens(stage: string, v: string)
    requires stage in {"L0", "L1", "L2", "VAL"}
    ensures JobsSubject(stage, v).Some?
    ensures Split(JobsSubject(stage, v).value, '.') ==
            ["jobs", FamilyOf(stage)] + (if stage == "VAL" then Split(v, '.') else ["cloud"])
  {
    hide Dotted, Split;
    FamiliesDiffer(stage, stage);
    var rest := if stage == "VAL" then v else "cloud";
    DottedTokens("jobs", FamilyOf(stage), rest);
    IndexByteAbsent("cloud");
    assert JobsSubject(stage, v) == Some(Dotted("jobs", FamilyOf(stage), rest));
  }

  /** A cloud worker's filter delivers the jobs of its stage, whatever vantage they are planned for, and
      those of no other stage. */
  lemma CloudFilterDelivers(stage: string, other: string, v: string)
    requires stage in {"L0", "L1", "L2"} && other in {"L0", "L1", "L2", "VAL"}
    ensures JobsSubject(other, v).Some?
    ensures Delivers(CloudFilter(stage), JobsSubject(other, v).value) <==> stage == other
  {
    hide Dotted, Split, Matches;
    SubjectTokens(other, v);
    FamiliesDiffer(stage, other);
    DottedTokens("jobs", FamilyOf(stage), ">");
    IndexByteAbsent(">");
    var f := ["jobs", FamilyOf(stage)];
    var t := if other == "VAL" then Split(v, '.') else ["cloud"];
    assert Split(CloudFilter(stage), '.') == f + [">"];
    TailMatches(f, ["jobs", FamilyOf(other)] + t);
    if f < ["jobs", FamilyOf(other)] + t {
      assert f[1] == (["jobs", FamilyOf(other)] + t)[1];
    }
    if stage == other {
      assert ["jobs", FamilyOf(other)] + t == f + t && t != [];
    }
  }

  /** No other stage has a subject. */
  lemma OtherStages(stage: string, v: string)
    ensures JobsSubject(stage, v).Some? <==> stage in {"L0", "L1", "L2", "VAL"}
  {
  }

  /** A speed test planned for an edge vantage is delivered to the cloud workers, and to no validator. */
  lemma EdgeSpeedTestsGoToTheCloud(v: string, u: string)
    requires Literal(Split(u, '.'))
    ensures JobsSubject("L2", v).Some? && Delivers(CloudFilter("L2"), JobsSubject("L2", v).value)
    ensures !Delivers(WorkerFilter(u), JobsSubject("L2", v).value)
    ensures !Delivers(CoordinatorFilter(u), JobsSubject("L2", v).value)
  {
    hide Dotted, Split, Matches;
    FinalToken("jobs", "l2", "cloud");
    CloudFilterDelivers("L2", "L2", v);
    assert ["jobs", "l2", "cloud"][1] == "l2";
    ValidatorsGetOnlyTheirs(u, JobsSubject("L2", v).value);
  }

  // ---- the durable consumer of one validator ----

  datatype Setup = Attach | Heartbeat

  /** The worker creates the durable only if it is missing; each heartbeat makes the coordinator
      create or update it. */
  function FilterAfter(v: string, events: seq<Setup>): Option<string> {
    if events == [] then None
    else
      var before := FilterAfter(v, events[..|events| - 1]);
      match events[|events| - 1]
      case Attach => if before.Some? then before else Some(WorkerFilter(v))
      case Heartbeat => Some(CoordinatorFilter(v))
  }

  lemma {:induction false} FilterIs(v: string, events: seq<Setup>)
    ensures FilterAfter(v, events) ==
            if Heartbeat in events then Some(CoordinatorFilter(v))
            else if events != [] then Some(WorkerFilter(v))
            else None
  {
    if events != [] {
      var n := |events| - 1;
      FilterIs(v, events[..n]);
      assert events == events[..n] + [events[n]];
      if events[n] == Attach && n > 0 {
        assert Heartbeat in events <==> Heartbeat in events[..n];
      }
    }
  }

  /** A validator is delivered its jobs exactly until its first heartbeat is seen. */
  lemma ValidatorServedIff(v: string, events: seq<Setup>)
    requires Literal(Split(v, '.'))
    ensures var f := FilterAfter(v, events);
            (f.Some? && Delivers(f.value, JobsSubject("VAL", v).value)) <==> Attach in events && Heartbeat !in events
  {
    FilterIs(v, events);
    WorkerFilterDelivers(v, v);
    CoordinatorFilterDelivers(v, v);
    if events != [] {
      assert events[0] in events;
    }
  }
}
