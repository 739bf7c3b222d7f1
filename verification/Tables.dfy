/** The nodes and node_checks tables and the statements the coordinator runs on them. */
module Tables {
  import opened Basics
  import opened Recompute

  datatype Identity = Identity(hash: string, uri: string, protocol: string, transport: string, host: string)

  datatype Row = Row(
    identity: Identity, status: Status, bestClass: Class, score: real,
    firstSeen: int, lastSeen: int, lastL1Ok: Option<int>)

  /** The unique key of node_checks. */
  datatype Key = Key(node: int, vantage: string, stage: string, bucket: int, ts: int)

  /** The five minutes of a time, counted from the epoch towards it: the division is towards zero. */
  function Bucket(ts: int): (b: int)
    ensures ts >= 0 ==> 300 * b <= ts < 300 * (b + 1)
    ensures ts <= 0 ==> 300 * (b - 1) < ts <= 300 * b
  {
    if ts >= 0 then ts / 300 else -(-ts / 300)
  }

  function KeyOf(c: Check): Key {
    Key(c.node, c.vantage, c.stage, Bucket(c.ts), c.ts)
  }

  type Nodes = map<int, Row>

  type Checks = map<Key, Check>

  datatype Tables = Tables(nodes: Nodes, checks: Checks, nextId: int)

  const EMPTY := Tables(map[], map[], 1)

  /** What the schema enforces: serial ids, unique hashes, the check key and its foreign key. */
  ghost predicate Valid(t: Tables) {
    && (forall id :: id in t.nodes ==> id < t.nextId)
    && (forall i, j :: i in t.nodes && j in t.nodes && t.nodes[i].identity.hash == t.nodes[j].identity.hash ==> i == j)
    && (forall k :: k in t.checks ==> KeyOf(t.checks[k]) == k && k.node in t.nodes)
  }

  function NewRow(identity: Identity, now: int): Row {
    Row(identity, Unknown, Unclassed, 0.0, now, now, None)
  }

  /** A known hash keeps its row but for last_seen; a new one gets a fresh row under a serial that was
      never used. */
  ghost predicate Upserted(t: Tables, identity: Identity, now: int, id: int, created: bool, t': Tables) {
    && (created <==> forall i :: i in t.nodes ==> t.nodes[i].identity.hash != identity.hash)
    && t'.checks == t.checks && t'.nextId == t.nextId + 1
    && if created then
         id == t.nextId && id !in t.nodes && t'.nodes == t.nodes[id := NewRow(identity, now)]
       else
         && id in t.nodes && t.nodes[id].identity.hash == identity.hash
         && t'.nodes == t.nodes[id := t.nodes[id].(lastSeen := now)]
  }

  /** The nodes the nightly cleanup removes. */
  function LongDead(nodes: Nodes, olderThan: int): set<int> {
    set id | id in nodes && nodes[id].status == Dead
          && (if nodes[id].lastL1Ok.Some? then nodes[id].lastL1Ok.value else nodes[id].firstSeen) < olderThan
  }

  function WithoutNodes(t: Tables, gone: set<int>): Tables {
    t.(nodes := t.nodes - gone, checks := map k | k in t.checks && k.node !in gone :: t.checks[k])
  }

  /** One newest check per vantage among these rows of the node; among equally new ones, any. */
  ghost predicate IsLatestAmong(rows: set<Key>, checks: Checks, id: int, latest: Latest)
    requires rows <= checks.Keys
  {
    && (forall v :: v in latest ==> exists k :: k in rows && k.node == id && k.vantage == v && latest[v] == checks[k])
    && (forall k :: k in rows && k.node == id ==> k.vantage in latest && checks[k].ts <= latest[k.vantage].ts)
  }

  ghost predicate IsLatest(checks: Checks, id: int, latest: Latest) {
    IsLatestAmong(checks.Keys, checks, id, latest)
  }

  lemma RowSkipped(rows: set<Key>, checks: Checks, id: int, latest: Latest, k: Key)
    requires rows <= checks.Keys && k in checks && IsLatestAmong(rows, checks, id, latest)
    requires k.node == id ==> k.vantage in latest && checks[k].ts <= latest[k.vantage].ts
    ensures IsLatestAmong(rows + {k}, checks, id, latest)
  {
  }

  lemma RowTaken(rows: set<Key>, checks: Checks, id: int, latest: Latest, k: Key)
    requires rows <= checks.Keys && k in checks && IsLatestAmong(rows, checks, id, latest)
    requires k.node == id && (k.vantage in latest ==> latest[k.vantage].ts <= checks[k].ts)
    ensures IsLatestAmong(rows + {k}, checks, id, latest[k.vantage := checks[k]])
  {
    var now := latest[k.vantage := checks[k]];
    forall v | v in now
      ensures exists j :: j in rows + {k} && j.node == id && j.vantage == v && now[v] == checks[j]
    {
      if v == k.vantage {
        assert k in rows + {k};
      } else {
        var j :| j in rows && j.node == id && j.vantage == v && latest[v] == checks[j];
        assert j in rows + {k};
      }
    }
  }

  datatype StoreError = NoSuchNode

  class Store {
    var nodes: Nodes
    var checks: Checks
    var nextId: int

    ghost function View(): Tables
      reads this
    {
      Tables(nodes, checks, nextId)
    }

    constructor ()
      ensures View() == EMPTY && Valid(View())
    {
      nodes, checks, nextId := map[], map[], 1;
    }

    /** The serial is drawn whether or not the hash is new. */
    method UpsertNode(identity: Identity, now: int) returns (id: int, created: bool)
      requires Valid(View())
      modifies this
      ensures Valid(View()) && Upserted(old(View()), identity, now, id, created, View())
    {
      var serial := nextId;
      nextId := nextId + 1;
      if known :| known in nodes && nodes[known].identity.hash == identity.hash {
        id, created := known, false;
        nodes := nodes[id := nodes[id].(lastSeen := now)];
      } else {
        id, created := serial, true;
        nodes := nodes[id := NewRow(identity, now)];
      }
    }

    method InsertCheck(c: Check) returns (r: Result<bool, StoreError>)
      requires Valid(View())
      modifies this`checks
      ensures Valid(View())
      ensures r == (if KeyOf(c) in old(checks) then Ok(false)
                    else if c.node !in nodes then Err(NoSuchNode)
                    else Ok(true))
      ensures checks == if r == Ok(true) then old(checks)[KeyOf(c) := c] else old(checks)
    {
      if KeyOf(c) in checks {
        return Ok(false);
      }
      if c.node !in nodes {
        return Err(NoSuchNode);
      }
      checks := checks[KeyOf(c) := c];
      return Ok(true);
    }

    method LatestByVantage(id: int) returns (latest: Latest)
      requires Valid(View())
      ensures IsLatest(checks, id, latest)
    {
      latest := map[];
      var rows := checks.Keys;
      while rows != {}
        invariant rows <= checks.Keys && IsLatestAmong(checks.Keys - rows, checks, id, latest)
      {
        var k :| k in rows;
        ghost var done := checks.Keys - rows;
        rows := rows - {k};
        assert checks.Keys - rows == done + {k};
        if k.node == id && (k.vantage !in latest || latest[k.vantage].ts <= checks[k].ts) {
          RowTaken(done, checks, id, latest, k);
          latest := latest[k.vantage := checks[k]];
        } else {
          RowSkipped(done, checks, id, latest, k);
        }
      }
      assert checks.Keys - {} == checks.Keys;
    }

    method UpdateNodeAggregate(id: int, status: Status, bestClass: Class, score: real, lastL1Ok: Option<int>)
      requires Valid(View())
      modifies this`nodes
      ensures Valid(View())
      ensures nodes == if id !in old(nodes) then old(nodes)
                       else old(nodes)[id := old(nodes)[id].(
                         status := status, bestClass := bestClass, score := score, lastL1Ok := lastL1Ok)]
    {
      if id in nodes {
        nodes := nodes[id := nodes[id].(
          status := status, bestClass := bestClass, score := score, lastL1Ok := lastL1Ok)];
      }
    }

    method DeleteLongDead(olderThan: int) returns (deleted: nat)
      requires Valid(View())
      modifies this
      ensures Valid(View()) && View() == WithoutNodes(old(View()), LongDead(old(nodes), olderThan))
      ensures deleted == |LongDead(old(nodes), olderThan)|
    {
      var gone := LongDead(nodes, olderThan);
      deleted := |gone|;
      nodes := nodes - gone;
      checks := map k | k in checks && k.node !in gone :: checks[k];
    }
  }
}
