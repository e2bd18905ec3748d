/** Thread planning and status reporting of the graph ARD gradient entry point:
    how the `dim0` input rows are split among threads and what string the call returns. */
module ArdPlan {
  import opened Arith
  import opened Outcome

  /** The rows `[start, end)` handed to one thread; it is empty when `start >= end`. */
  datatype Range = Range(start: int, end: int)

  /** Row `q` belongs to range `r`. */
  predicate InRange(r: Range, q: int)
  {
    r.start <= q < r.end
  }

  /** The thread count after clamping it to the number of rows. */
  function ClampThreads(dim0: nat, numThreads: nat): (nt: nat)
    ensures nt <= dim0 && nt <= numThreads
    ensures nt == dim0 || nt == numThreads
  {
    if numThreads > dim0 then dim0 else numThreads
  }

  /** The chunk size exactly as the entry point computes it: `None` is the integer
      division by zero that happens when the clamped thread count is zero. */
  function ChunkSizeAsWritten(dim0: nat, numThreads: nat): (r: Option<nat>)
    ensures r.None? <==> dim0 == 0 || numThreads == 0
    ensures r.Some? ==> r.value * ClampThreads(dim0, numThreads) >= dim0
    ensures r.Some? ==> (r.value - 1) * ClampThreads(dim0, numThreads) < dim0
  {
    var nt := ClampThreads(dim0, numThreads);
    if nt == 0 then None else Some(CeilDiv(dim0, nt))
  }

  /** An empty batch reaches the division with a thread count of zero, whatever thread
      count was requested. */
  lemma EmptyBatchDividesByZero(numThreads: nat)
    ensures ClampThreads(0, numThreads) == 0
    ensures ChunkSizeAsWritten(0, numThreads) == None
  {
  }

  /** Rows per thread, for a non-empty batch. */
  function ChunkSize(dim0: nat, numThreads: nat): (chunk: nat)
    requires dim0 >= 1 && numThreads >= 1
    ensures chunk >= 1
    ensures ChunkSizeAsWritten(dim0, numThreads) == Some(chunk)
  {
    CeilDiv(dim0, ClampThreads(dim0, numThreads))
  }

  /** The row ranges of the threads. Thread `t` gets `[t * chunk, min((t + 1) * chunk, dim0))`;
      an empty batch starts no thread at all. */
  function ThreadRanges(dim0: nat, numThreads: nat): (rs: seq<Range>)
    requires numThreads >= 1
    ensures |rs| == ClampThreads(dim0, numThreads)
  {
    if dim0 == 0 then []
    else
      var chunk := ChunkSize(dim0, numThreads);
      seq(ClampThreads(dim0, numThreads), t =>
        Range(t * chunk, if (t + 1) * chunk > dim0 then dim0 else (t + 1) * chunk))
  }

  /** Row `q` belongs to thread `t` exactly when `q` is a row of the batch and
      `t` is `q / chunk`; so no row belongs to two threads. */
  lemma RangeMembership(dim0: nat, numThreads: nat, t: nat, q: int)
    requires dim0 >= 1 && numThreads >= 1
    requires t < |ThreadRanges(dim0, numThreads)|
    ensures InRange(ThreadRanges(dim0, numThreads)[t], q)
        <==> 0 <= q < dim0 && q / ChunkSize(dim0, numThreads) == t
  {
    var chunk := ChunkSize(dim0, numThreads);
    var r := ThreadRanges(dim0, numThreads)[t];
    var lo := t * chunk;
    assert r.start == lo && (r.end == dim0 || r.end == lo + chunk) && r.end <= dim0 && r.end <= lo + chunk by {
      assert (t + 1) * chunk == lo + chunk;
    }
    if InRange(r, q) {
      DivBlock(q, t, chunk);
    }
    if 0 <= q < dim0 && q / chunk == t {
      DivModUnique(q, chunk, q / chunk, q % chunk);
      assert lo <= q < lo + chunk;
    }
  }

  /** Thread `t` starts where the threads before it end and runs one chunk further, or to
      the end of the batch. */
  lemma RangeAt(dim0: nat, numThreads: nat, t: nat, start: nat)
    requires dim0 >= 1 && numThreads >= 1 && t < ClampThreads(dim0, numThreads)
    requires start == RowStart(t, ChunkSize(dim0, numThreads))
    ensures var chunk := ChunkSize(dim0, numThreads);
      ThreadRanges(dim0, numThreads)[t] == Range(start, if start + chunk > dim0 then dim0 else start + chunk)
      && RowStart(t + 1, chunk) == start + chunk
  {
    RowStartStep(t, ChunkSize(dim0, numThreads));
  }

  /** The chunks of all threads together reach the end of the batch. */
  lemma RangesCover(dim0: nat, numThreads: nat)
    requires dim0 >= 1 && numThreads >= 1
    ensures RowStart(ClampThreads(dim0, numThreads), ChunkSize(dim0, numThreads)) >= dim0
  {
    var chunk, nt := ChunkSize(dim0, numThreads), ClampThreads(dim0, numThreads);
    assert chunk * nt >= dim0;
    assert RowStart(nt, chunk) == chunk * nt;
  }

  /** Every row of the batch belongs to some thread. */
  lemma RangeOwner(dim0: nat, numThreads: nat, q: int)
    requires numThreads >= 1 && 0 <= q < dim0
    ensures q / ChunkSize(dim0, numThreads) < |ThreadRanges(dim0, numThreads)|
    ensures InRange(ThreadRanges(dim0, numThreads)[q / ChunkSize(dim0, numThreads)], q)
  {
    var chunk := ChunkSize(dim0, numThreads);
    var nt := ClampThreads(dim0, numThreads);
    var t := q / chunk;
    DivModUnique(q, chunk, t, q % chunk);
    if t >= nt {
      MulMono(nt, t, chunk);
      assert false;
    }
    RangeMembership(dim0, numThreads, t, q);
  }

  /** The string the entry point returns. */
  datatype Status = NoError | Error

  /** The status of one call, given what the environment did: whether the argument
      allocation succeeded, which thread creations succeeded (the call stops at the
      first failure) and the flag each join returned. */
  method LaunchStatus(allocOk: bool, created: seq<bool>, joinFlags: seq<int>) returns (s: Status)
    requires |joinFlags| == |created|
    ensures s == NoError <==>
      allocOk && (forall i :: 0 <= i < |created| ==> created[i])
              && (forall i :: 0 <= i < |joinFlags| ==> joinFlags[i] == 0)
  {
    if !allocOk {
      return Error;
    }
    var i := 0;
    while i < |created|
      invariant i <= |created|
      invariant forall u :: 0 <= u < i ==> created[u]
    {
      if !created[i] {
        return Error;
      }
      i := i + 1;
    }
    i := 0;
    while i < |joinFlags|
      invariant i <= |joinFlags|
      invariant forall u :: 0 <= u < i ==> joinFlags[u] == 0
    {
      if joinFlags[i] != 0 {
        return Error;
      }
      i := i + 1;
    }
    return NoError;
  }
}
