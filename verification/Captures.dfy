/** Bounded output capture with one budget shared by two streams (capture.go). */
module Captures {
  import opened Common

  const MAX_INT64: int := 0x7fff_ffff_ffff_ffff

  function SaturatingAdd(left: int, right: int): (sum: int)
    requires 0 <= left <= MAX_INT64 && 0 <= right <= MAX_INT64
    ensures sum == if left + right > MAX_INT64 then MAX_INT64 else left + right
  {
    if right > MAX_INT64 - left then MAX_INT64 else left + right
  }

  datatype Stream = Stdout | Stderr

  /** One Write call. */
  datatype Chunk = Chunk(stream: Stream, data: bytes)

  /** One byte with the stream it was written to. */
  datatype Labelled = Labelled(stream: Stream, value: byte)

  // ---- the specification: label every byte, keep the first N, project ----

  function LabelAll(stream: Stream, data: bytes): (r: seq<Labelled>)
    ensures |r| == |data|
  {
    seq(|data|, i requires 0 <= i < |data| => Labelled(stream, data[i]))
  }

  /** Every byte ever written, in order, with its stream. */
  function Merged(chunks: seq<Chunk>): seq<Labelled> {
    if chunks == [] then []
    else Merged(chunks[..|chunks| - 1]) + LabelAll(chunks[|chunks| - 1].stream, chunks[|chunks| - 1].data)
  }

  function Take<T>(q: seq<T>, n: nat): seq<T> {
    if n <= |q| then q[..n] else q
  }

  function Project(q: seq<Labelled>, stream: Stream): bytes {
    if q == [] then []
    else Project(q[..|q| - 1], stream) + (if q[|q| - 1].stream == stream then [q[|q| - 1].value] else [])
  }

  function Saturated(n: int): int {
    if n > MAX_INT64 then MAX_INT64 else n
  }

  /** A stream's share of the first `maximum` bytes of the merged output. */
  function Share(merged: seq<Labelled>, stream: Stream, maximum: nat): bytes {
    Project(Take(merged, maximum), stream)
  }

  function Seen(merged: seq<Labelled>, stream: Stream): int {
    Saturated(|Project(merged, stream)|)
  }

  lemma {:induction false} ProjectAppend(q: seq<Labelled>, r: seq<Labelled>, stream: Stream)
    ensures Project(q + r, stream) == Project(q, stream) + Project(r, stream)
    decreases |r|
  {
    if r == [] {
      assert q + r == q;
    } else {
      assert (q + r)[..|q + r| - 1] == q + r[..|r| - 1];
      ProjectAppend(q, r[..|r| - 1], stream);
    }
  }

  lemma {:induction false} ProjectLabelled(stream: Stream, data: bytes, other: Stream)
    ensures Project(LabelAll(stream, data), other) == if other == stream then data else []
    decreases |data|
  {
    if data != [] {
      var q := LabelAll(stream, data);
      assert q[..|q| - 1] == LabelAll(stream, data[..|data| - 1]);
      ProjectLabelled(stream, data[..|data| - 1], other);
      assert data == data[..|data| - 1] + [data[|data| - 1]];
    }
  }

  lemma {:induction false} ProjectionsCover(q: seq<Labelled>)
    ensures |Project(q, Stdout)| + |Project(q, Stderr)| == |q|
    decreases |q|
  {
    if q != [] {
      ProjectionsCover(q[..|q| - 1]);
    }
  }

  function Accepted(data: bytes, room: int): int {
    if |data| <= room then |data| else room
  }

  /** Writing one chunk after `merged`: what the first `maximum` bytes gain. */
  lemma ChunkKept(merged: seq<Labelled>, stream: Stream, data: bytes, maximum: nat)
    ensures var room := maximum - |Take(merged, maximum)|;
            && 0 <= Accepted(data, room) <= |data|
            && Take(merged + LabelAll(stream, data), maximum)
               == Take(merged, maximum) + LabelAll(stream, data[..Accepted(data, room)])
  {
    var labelled := LabelAll(stream, data);
    var accepted := Accepted(data, maximum - |Take(merged, maximum)|);
    assert labelled[..accepted] == LabelAll(stream, data[..accepted]);
    assert Take(merged + labelled, maximum) == Take(merged, maximum) + labelled[..accepted];
  }

  lemma SharesAfterChunk(merged: seq<Labelled>, stream: Stream, data: bytes, other: Stream, maximum: nat)
    ensures var room := maximum - |Take(merged, maximum)|;
            var after := merged + LabelAll(stream, data);
            && 0 <= Accepted(data, room) <= |data|
            && Share(after, other, maximum)
               == Share(merged, other, maximum) + (if other == stream then data[..Accepted(data, room)] else [])
            && |Take(after, maximum)| == |Take(merged, maximum)| + Accepted(data, room)
            && |Project(after, other)| == |Project(merged, other)| + (if other == stream then |data| else 0)
  {
    var accepted := Accepted(data, maximum - |Take(merged, maximum)|);
    ChunkKept(merged, stream, data, maximum);
    ProjectAppend(merged, LabelAll(stream, data), other);
    ProjectLabelled(stream, data, other);
    ProjectAppend(Take(merged, maximum), LabelAll(stream, data[..accepted]), other);
    ProjectLabelled(stream, data[..accepted], other);
  }

  // ---- the mutable budget and captures ----

  class CaptureBudget {
    var remaining: int
    var truncated: bool

    constructor (maximum: nat)
      ensures remaining == maximum && !truncated
    {
      remaining, truncated := maximum, false;
    }
  }

  class BoundedCapture {
    const stream: Stream
    const budget: CaptureBudget
    var content: bytes
    var observed: int

    constructor (stream: Stream, budget: CaptureBudget)
      ensures this.stream == stream && this.budget == budget && content == [] && observed == 0
    {
      this.stream, this.budget, content, observed := stream, budget, [], 0;
    }

    /** This capture and its budget stand where writing `merged` leaves them. */
    ghost predicate Holds(merged: seq<Labelled>, maximum: nat)
      reads this, budget
    {
      && content == Share(merged, stream, maximum) && observed == Seen(merged, stream)
      && budget.remaining == maximum - |Take(merged, maximum)|
      && (budget.truncated <==> |merged| > maximum)
    }

    /** Write: everything is observed, what fits the shared budget is kept, and the caller is told all was written. */
    method Write(data: bytes, ghost merged: seq<Labelled>, ghost maximum: nat) returns (written: int)
      requires |data| <= MAX_INT64
      requires Holds(merged, maximum)
      modifies this, budget
      ensures Holds(merged + LabelAll(stream, data), maximum)
      ensures written == |data|
    {
      SharesAfterChunk(merged, stream, data, stream, maximum);
      observed := SaturatingAdd(observed, |data|);
      var accepted := Accepted(data, budget.remaining);
      if accepted > 0 {
        content := content + data[..accepted];
        budget.remaining := budget.remaining - accepted;
      }
      if accepted < |data| {
        budget.truncated := true;
      }
      written := |data|;
    }

    method TakeSnapshot() returns (kept: bytes, seen: int, truncated: bool)
      ensures kept == content && seen == observed && truncated == budget.truncated
    {
      return content, observed, budget.truncated;
    }
  }

  method NewCapturePair(maximum: nat) returns (stdout: BoundedCapture, stderr: BoundedCapture)
    ensures fresh(stdout) && fresh(stderr) && fresh(stdout.budget) && stdout != stderr
    ensures stdout.stream == Stdout && stderr.stream == Stderr && stdout.budget == stderr.budget
    ensures stdout.Holds([], maximum) && stderr.Holds([], maximum)
  {
    var budget := new CaptureBudget(maximum);
    stdout := new BoundedCapture(Stdout, budget);
    stderr := new BoundedCapture(Stderr, budget);
  }

  predicate Representable(chunks: seq<Chunk>) {
    forall i :: 0 <= i < |chunks| ==> |chunks[i].data| <= MAX_INT64
  }

  lemma MergedGrows(chunks: seq<Chunk>, i: nat)
    requires i < |chunks|
    ensures Merged(chunks[..i + 1]) == Merged(chunks[..i]) + LabelAll(chunks[i].stream, chunks[i].data)
  {
    assert chunks[..i + 1][..i] == chunks[..i];
  }

  ghost predicate PairHolds(stdout: BoundedCapture, stderr: BoundedCapture, merged: seq<Labelled>, maximum: nat)
    reads stdout, stderr, stdout.budget, stderr.budget
  {
    && stdout != stderr && stdout.stream == Stdout && stderr.stream == Stderr && stdout.budget == stderr.budget
    && stdout.Holds(merged, maximum) && stderr.Holds(merged, maximum)
  }

  method WriteChunk(stdout: BoundedCapture, stderr: BoundedCapture, chunk: Chunk, ghost merged: seq<Labelled>, ghost maximum: nat)
    requires |chunk.data| <= MAX_INT64 && PairHolds(stdout, stderr, merged, maximum)
    modifies stdout, stderr, stdout.budget
    ensures PairHolds(stdout, stderr, merged + LabelAll(chunk.stream, chunk.data), maximum)
  {
    if chunk.stream == Stdout {
      SharesAfterChunk(merged, chunk.stream, chunk.data, Stderr, maximum);
      var _ := stdout.Write(chunk.data, merged, maximum);
    } else {
      SharesAfterChunk(merged, chunk.stream, chunk.data, Stdout, maximum);
      var _ := stderr.Write(chunk.data, merged, maximum);
    }
  }

  /**
   Any interleaving of writes to a fresh pair ends where the specification says:
   each stream keeps its share of the first `maximum` bytes of the merged output.
   */
  method CaptureAll(chunks: seq<Chunk>, maximum: nat) returns (stdout: BoundedCapture, stderr: BoundedCapture)
    requires Representable(chunks)
    ensures PairHolds(stdout, stderr, Merged(chunks), maximum)
  {
    stdout, stderr := NewCapturePair(maximum);
    var i := 0;
    ghost var merged := [];
    while i < |chunks|
      invariant 0 <= i <= |chunks| && merged == Merged(chunks[..i])
      invariant fresh(stdout) && fresh(stderr) && fresh(stdout.budget)
      invariant PairHolds(stdout, stderr, merged, maximum)
    {
      WriteChunk(stdout, stderr, chunks[i], merged, maximum);
      MergedGrows(chunks, i);
      merged := merged + LabelAll(chunks[i].stream, chunks[i].data);
      i := i + 1;
    }
    assert chunks[..|chunks|] == chunks;
  }

  /** The budget is conserved: what is kept and what remains make up the maximum, and nothing is lost short of it. */
  lemma BudgetIsConserved(chunks: seq<Chunk>, maximum: nat)
    ensures var merged := Merged(chunks);
            var kept := |Share(merged, Stdout, maximum)| + |Share(merged, Stderr, maximum)|;
            && kept + (maximum - |Take(merged, maximum)|) == maximum
            && kept == (if |merged| > maximum then maximum else |merged|)
  {
    ProjectionsCover(Take(Merged(chunks), maximum));
  }

  function BytesTo(chunks: seq<Chunk>, stream: Stream): bytes {
    if chunks == [] then []
    else BytesTo(chunks[..|chunks| - 1], stream)
         + (if chunks[|chunks| - 1].stream == stream then chunks[|chunks| - 1].data else [])
  }

  /** Each stream's content is a prefix of what was written to it, and its count is the true total, saturated. */
  lemma StreamsAreFaithful(chunks: seq<Chunk>, stream: Stream, maximum: nat)
    ensures var merged := Merged(chunks);
            && Share(merged, stream, maximum) <= BytesTo(chunks, stream)
            && Seen(merged, stream) == Saturated(|BytesTo(chunks, stream)|)
            && (|merged| <= maximum ==> Share(merged, stream, maximum) == BytesTo(chunks, stream))
  {
    var merged := Merged(chunks);
    MergedProjects(chunks, stream);
    if maximum <= |merged| {
      ProjectAppend(merged[..maximum], merged[maximum..], stream);
      assert merged[..maximum] + merged[maximum..] == merged;
    }
  }

  lemma {:induction false} MergedProjects(chunks: seq<Chunk>, stream: Stream)
    ensures Project(Merged(chunks), stream) == BytesTo(chunks, stream)
    decreases |chunks|
  {
    if chunks != [] {
      var front, last := chunks[..|chunks| - 1], chunks[|chunks| - 1];
      MergedProjects(front, stream);
      ProjectAppend(Merged(front), LabelAll(last.stream, last.data), stream);
      ProjectLabelled(last.stream, last.data, stream);
    }
  }
}
