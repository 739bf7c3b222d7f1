/** Two loops that cut a list into batches: the planner slices, the fetcher fills and flushes a
    buffer. Both are proved against one function. */
module Batching {

  function Chunks<T>(s: seq<T>, size: nat): seq<seq<T>>
    requires size > 0
  {
    if s == [] then []
    else if |s| <= size then [s]
    else [s[..size]] + Chunks(s[size..], size)
  }

  function Concat<T>(chunks: seq<seq<T>>): seq<T> {
    if chunks == [] then [] else chunks[0] + Concat(chunks[1..])
  }

  /** Nothing lost, added or reordered. */
  lemma {:induction false} ChunksConcat<T>(s: seq<T>, size: nat)
    requires size > 0
    ensures Concat(Chunks(s, size)) == s
  {
    if |s| > size {
      ChunksConcat(s[size..], size);
      assert Chunks(s, size)[1..] == Chunks(s[size..], size);
      assert s == s[..size] + s[size..];
    } else if s != [] {
      assert [s][1..] == [];
    }
  }

  /** No batch is empty or too long, and only the last may be short. */
  lemma {:induction false} ChunkSizes<T>(s: seq<T>, size: nat, i: nat)
    requires size > 0 && i < |Chunks(s, size)|
    ensures 0 < |Chunks(s, size)[i]| <= size
    ensures i + 1 < |Chunks(s, size)| ==> |Chunks(s, size)[i]| == size
  {
    if |s| > size && i > 0 {
      ChunkSizes(s[size..], size, i - 1);
    }
  }

  lemma {:induction false} ConcatPrefix<T>(chunks: seq<seq<T>>, n: nat)
    requires n <= |chunks|
    ensures Concat(chunks) == Concat(chunks[..n]) + Concat(chunks[n..])
  {
    if n == 0 {
      assert chunks[..0] == [] && chunks[0..] == chunks;
    } else {
      ConcatPrefix(chunks[1..], n - 1);
      assert chunks[..n][1..] == chunks[1..][..n - 1];
      assert chunks[1..][n - 1..] == chunks[n..];
    }
  }

  lemma {:induction false} ConcatSnoc<T>(chunks: seq<seq<T>>, last: seq<T>)
    ensures Concat(chunks + [last]) == Concat(chunks) + last
  {
    ConcatPrefix(chunks + [last], |chunks|);
    assert (chunks + [last])[..|chunks|] == chunks && (chunks + [last])[|chunks|..] == [last];
    assert [last][1..] == [];
  }

  /** The batches sent before an error: a proper prefix of all, and so of the list. */
  lemma PrefixSent<T>(s: seq<T>, size: nat, sent: seq<seq<T>>)
    requires size > 0 && sent < Chunks(s, size)
    ensures Concat(sent) < s
  {
    var all := Chunks(s, size);
    ChunksConcat(s, size);
    ConcatPrefix(all, |sent|);
    assert sent == all[..|sent|];
    ChunkSizes(s, size, |sent|);
    assert all[|sent|..][0] == all[|sent|];
    assert |Concat(all[|sent|..])| > 0;
  }

  /** These batches went out, and the rest of the list is still to be cut. */
  ghost predicate Cut<T>(nodes: seq<T>, size: nat, sent: seq<seq<T>>, rest: seq<T>)
    requires size > 0
  {
    sent + Chunks(rest, size) == Chunks(nodes, size) && |Concat(sent)| + |rest| == |nodes|
  }

  lemma CutOneMore<T>(nodes: seq<T>, size: nat, sent: seq<seq<T>>, rest: seq<T>, job: seq<T>, rest': seq<T>)
    requires size > 0 && Cut(nodes, size, sent, rest) && rest == job + rest'
    requires |job| == size || (0 < |job| < size && rest' == [])
    ensures sent < Chunks(nodes, size) && Cut(nodes, size, sent + [job], rest')
    ensures |Concat(sent)| + |rest| == |nodes|
  {
    assert Chunks(rest, size) == [job] + Chunks(rest', size) by {
      if rest' == [] {
        assert rest == job;
      } else {
        assert rest[..size] == job && rest[size..] == rest';
      }
    }
    assert sent + ([job] + Chunks(rest', size)) == (sent + [job]) + Chunks(rest', size);
    ConcatSnoc(sent, job);
  }

  lemma CutDone<T>(nodes: seq<T>, size: nat, sent: seq<seq<T>>)
    requires size > 0 && Cut(nodes, size, sent, [])
    ensures sent == Chunks(nodes, size)
  {
  }

  /** The planner's loop. A zero batch would never advance and a negative one would slice out of
      range, so the flag must be positive unless there is nothing to send. */
  method PublishBatched<T>(nodes: seq<T>, batch: int) returns (sent: seq<seq<T>>, published: nat, ok: bool)
    requires batch > 0 || nodes == []
    ensures nodes == [] ==> ok && sent == [] && published == 0
    ensures batch > 0 ==> if ok then sent == Chunks(nodes, batch) && published == |nodes|
                          else sent < Chunks(nodes, batch) && published == |Concat(sent)|
  {
    sent, published, ok := [], 0, true;
    if nodes == [] {
      return;
    }
    var start := 0;
    assert nodes[0..] == nodes;
    while start < |nodes|
      invariant 0 <= start && published == (if start < |nodes| then start else |nodes|)
      invariant Cut(nodes, batch, sent, nodes[published..])
    {
      var end := start + batch;
      if end > |nodes| {
        end := |nodes|;
      }
      var job := nodes[start..end];
      assert nodes[start..] == job + nodes[end..];
      CutOneMore(nodes, batch, sent, nodes[start..], job, nodes[end..]);
      var failed: bool := *;
      if failed {
        return sent, published, false;
      }
      sent := sent + [job];
      published := published + end - start;
      start := start + batch;
    }
    ok := true;
  }

  /** The fetcher's loop: a buffer flushed when it reaches the batch size, and once more at the end. A
      batch of zero flushes every node on its own. */
  method FetchBatches<T>(nodes: seq<T>, batch: nat) returns (sent: seq<seq<T>>, published: nat, ok: bool)
    ensures var size := if batch == 0 then 1 else batch;
            if ok then sent == Chunks(nodes, size) && published == |nodes|
            else sent < Chunks(nodes, size) && published == |Concat(sent)|
  {
    ghost var size := if batch == 0 then 1 else batch;
    sent, published := [], 0;
    var buffer: seq<T> := [];
    assert buffer + nodes[0..] == nodes;
    hide Cut, Chunks, Concat;
    for i := 0 to |nodes|
      invariant |buffer| < size && published + |buffer| == i
      invariant Cut(nodes, size, sent, buffer + nodes[i..])
    {
      assert buffer + nodes[i..] == buffer + [nodes[i]] + nodes[i + 1..];
      buffer := buffer + [nodes[i]];
      if |buffer| >= batch {
        CutOneMore(nodes, size, sent, buffer + nodes[i + 1..], buffer, nodes[i + 1..]);
        var failed: bool := *;
        if failed {
          return sent, published, false;
        }
        sent, published, buffer := sent + [buffer], published + |buffer|, [];
        assert buffer + nodes[i + 1..] == nodes[i + 1..];
      }
    }
    assert buffer + nodes[|nodes|..] == buffer == buffer + [];
    if buffer != [] {
      CutOneMore(nodes, size, sent, buffer, buffer, []);
      var failed: bool := *;
      if failed {
        return sent, published, false;
      }
      sent, published := sent + [buffer], published + |buffer|;
    }
    CutDone(nodes, size, sent);
    ok := true;
  }
}
