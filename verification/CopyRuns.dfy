/** Whole runs of the copy engine: schedule independence, conservation, progress, and the final drain. */
module CopyRuns {
  import opened Common
  import opened CopyModel
  import opened CopySafety

  // ---------------------------------------------------------------- the result

  /** The destination after a complete copy of `src` over a file that held `was`. */
  function CopyResult(src: seq<Byte>, was: seq<Byte>): seq<Byte> {
    if |was| > |src| then src + was[|src|..] else src
  }

  /** Once every position has been written, the destination is determined. */
  lemma WrittenIsCopied(s: State, src: seq<Byte>, was: seq<Byte>)
    requires Content(s, src, was)
    requires forall k :: 0 <= k < |src| ==> k in s.written
    ensures s.dest == CopyResult(src, was)
  {
    if |src| > 0 { assert |src| - 1 in s.written; }
    forall k | 0 <= k < |s.dest| ensures s.dest[k] == CopyResult(src, was)[k] {
      if k < |src| { assert k in s.written; }
    }
  }

  lemma {:induction false} NoReadBytesNoReads(heap: map<Ptr, Request>, src: seq<Byte>, offset: nat)
    requires forall p :: p in heap ==> GoodRequest(heap[p], src, offset)
    requires Sum(heap, ReadBytes) == 0
    ensures forall p :: p in heap ==> !heap[p].read
  {
    forall p | p in heap ensures !heap[p].read {
      SumRemove(heap, ReadBytes, p);
    }
  }

  lemma {:induction false} OnlyWrites(heap: map<Ptr, Request>)
    requires forall p :: p in heap ==> !heap[p].read
    ensures Sum(heap, ReadOne) == Sum(heap, ReadBytes) == 0 && Sum(heap, WriteOne) == |heap|
    decreases |heap|
  {
    CountLive(heap);
    if heap != map[] {
      var p :| p in heap;
      SumRemove(heap, ReadOne, p);
      SumRemove(heap, ReadBytes, p);
      OnlyWrites(heap - {p});
    }
  }

  /** When the main loop ends, every live block is a write and `writes` counts them. */
  lemma MainLoopExit(s: State, src: seq<Byte>, was: seq<Byte>)
    requires Inv(s, src, was) && s.insize == 0 && s.writeLeft == 0
    ensures s.offset == |src| && s.nReads == 0 && s.nWrites == |s.heap|
    ensures forall p :: p in s.heap ==> !s.heap[p].read
  {
    NoReadBytesNoReads(s.heap, src, s.offset);
    OnlyWrites(s.heap);
  }

  // ---------------------------------------------------------------- runs

  datatype Action =
    | DoFill(p: Ptr, garbage: seq<Byte>)
    | DoSubmit
    | DoAgain(p: Ptr)
    | DoComplete(p: Ptr, res: nat)

  /** The actions copy_file or the kernel can take: any order, any outstanding request, any length. */
  ghost predicate Enabled(s: State, src: seq<Byte>, a: Action) {
    match a
    case DoFill(p, garbage) =>
      s.insize > 0 && s.nReads + s.nWrites < DEPTH && p !in s.heap && |garbage| == ChunkSize(s.insize)
    case DoSubmit => true
    case DoAgain(p) => p in s.flying
    case DoComplete(p, res) => CanTransfer(s, src, p, res)
  }

  ghost function Apply(s: State, src: seq<Byte>, a: Action): State
    requires Enabled(s, src, a)
  {
    match a
    case DoFill(p, garbage) => Fill(s, p, garbage)
    case DoSubmit => Submit(s)
    case DoAgain(p) => OnAgain(s, p)
    case DoComplete(p, res) => OnComplete(s, src, p, res)
  }

  ghost predicate IsRun(s: State, src: seq<Byte>, run: seq<Action>)
    decreases |run|
  {
    run == [] || (Enabled(s, src, run[0]) && IsRun(Apply(s, src, run[0]), src, run[1..]))
  }

  ghost function Last(s: State, src: seq<Byte>, run: seq<Action>): State
    requires IsRun(s, src, run)
    decreases |run|
  {
    if run == [] then s else Last(Apply(s, src, run[0]), src, run[1..])
  }

  /** Bytes that the completions of a run report. */
  function Moved(run: seq<Action>): nat {
    if run == [] then 0
    else (if run[0].DoComplete? then run[0].res else 0) + Moved(run[1..])
  }

  ghost function Remaining(s: State): nat { 2 * s.insize + Sum(s.heap, Work) }

  lemma FillConserves(s: State, src: seq<Byte>, was: seq<Byte>, p: Ptr, garbage: seq<Byte>)
    requires Inv(s, src, was) && Enabled(s, src, DoFill(p, garbage))
    ensures Inv(Fill(s, p, garbage), src, was) && Remaining(Fill(s, p, garbage)) == Remaining(s)
  {
    CountLive(s.heap);
    FillKeepsInv(s, src, was, p, garbage);
    SumsPut(s.heap, p, NewRead(ChunkSize(s.insize), s.offset, garbage));
  }

  lemma StepKeepsInv(s: State, src: seq<Byte>, was: seq<Byte>, a: Action)
    requires Inv(s, src, was) && Enabled(s, src, a)
    ensures Inv(Apply(s, src, a), src, was)
    ensures Remaining(Apply(s, src, a)) + (if a.DoComplete? then a.res else 0) == Remaining(s)
  {
    match a
    case DoFill(p, garbage) =>
      FillConserves(s, src, was, p, garbage);
    case DoSubmit => SubmitKeepsInv(s, src, was);
    case DoAgain(p) => AgainKeepsInv(s, src, was, p);
    case DoComplete(p, res) => CompleteKeepsInv(s, src, was, p, res);
  }

  /** Every reachable state is good, and bytes moved plus bytes still to move stay at their first sum. */
  lemma {:induction false} RunKeepsInv(s: State, src: seq<Byte>, was: seq<Byte>, run: seq<Action>)
    requires Inv(s, src, was) && IsRun(s, src, run)
    ensures Inv(Last(s, src, run), src, was)
    ensures Moved(run) + Remaining(Last(s, src, run)) == Remaining(s)
    decreases |run|
  {
    if run != [] {
      StepKeepsInv(s, src, was, run[0]);
      RunKeepsInv(Apply(s, src, run[0]), src, was, run[1..]);
    }
  }

  /** The states that some schedule leads to. */
  ghost predicate Reachable(s: State, src: seq<Byte>, was: seq<Byte>) {
    exists run :: IsRun(Init(|src|, was), src, run) && Last(Init(|src|, was), src, run) == s
  }

  lemma InitReachable(src: seq<Byte>, was: seq<Byte>)
    ensures Reachable(Init(|src|, was), src, was)
  {
    assert IsRun(Init(|src|, was), src, []) && Last(Init(|src|, was), src, []) == Init(|src|, was);
  }

  lemma ReachableInv(s: State, src: seq<Byte>, was: seq<Byte>)
    requires Reachable(s, src, was)
    ensures Inv(s, src, was)
  {
    var run :| IsRun(Init(|src|, was), src, run) && Last(Init(|src|, was), src, run) == s;
    InitInv(src, was);
    RunKeepsInv(Init(|src|, was), src, was, run);
  }

  lemma {:induction false} RunExtends(s: State, src: seq<Byte>, run: seq<Action>, a: Action)
    requires IsRun(s, src, run) && Enabled(Last(s, src, run), src, a)
    ensures IsRun(s, src, run + [a])
    ensures Last(s, src, run + [a]) == Apply(Last(s, src, run), src, a)
    decreases |run|
  {
    if run == [] {
      assert run + [a] == [a] && [a][1..] == [];
      assert IsRun(Apply(s, src, a), src, []);
    } else {
      RunExtends(Apply(s, src, run[0]), src, run[1..], a);
      assert (run + [a])[1..] == run[1..] + [a];
    }
  }

  lemma ReachableStep(s: State, src: seq<Byte>, was: seq<Byte>, a: Action)
    requires Reachable(s, src, was) && Enabled(s, src, a)
    ensures Reachable(Apply(s, src, a), src, was)
    ensures Remaining(Apply(s, src, a)) + (if a.DoComplete? then a.res else 0) == Remaining(s)
  {
    var run :| IsRun(Init(|src|, was), src, run) && Last(Init(|src|, was), src, run) == s;
    RunExtends(Init(|src|, was), src, run, a);
    ReachableInv(s, src, was);
    StepKeepsInv(s, src, was, a);
  }

  // ---------------------------------------------------------------- every reachable state

  /** Exactly one of: not handed out yet, written, or pending on one block. */
  lemma ReachableTiles(s: State, src: seq<Byte>, was: seq<Byte>, k: nat)
    requires Reachable(s, src, was) && k < |src|
    ensures s.offset + s.insize == |src|
    ensures k >= s.offset ==> k !in s.written && forall p :: p in s.heap ==> !Pending(s.heap[p], k)
    ensures k < s.offset ==> (k in s.written <==> forall p :: p in s.heap ==> !Pending(s.heap[p], k))
    ensures forall p, q :: p in s.heap && q in s.heap && Pending(s.heap[p], k) && Pending(s.heap[q], k) ==> p == q
    ensures k in s.written ==> k < |s.dest| && s.dest[k] == src[k]
  {
    ReachableInv(s, src, was);
    forall p | p in s.heap && Pending(s.heap[p], k) ensures k < s.offset {
      assert GoodRequest(s.heap[p], src, s.offset);
    }
    if k < s.offset { assert Covered(s, k); }
  }

  /**
  The three cursors of a request move together, and the bytes behind them are the source's: in the buffer
  for a read, in the destination for a write.
  */
  lemma ReachableCursors(s: State, src: seq<Byte>, was: seq<Byte>, p: Ptr, k: nat)
    requires Reachable(s, src, was) && p in s.heap
    ensures var r := s.heap[p];
      && r.offset - r.firstOffset == r.base == r.firstLen - r.len
      && r.firstOffset + r.firstLen <= |src| && |r.buffer| == r.firstLen
      && (r.read && k < r.base ==> r.buffer[k] == src[r.firstOffset + k])
      && (!r.read && k < r.firstLen ==> r.buffer[k] == src[r.firstOffset + k])
      && (!r.read && r.firstOffset <= k < r.offset ==>
            k in s.written && k < |s.dest| && s.dest[k] == src[k])
  {
    ReachableInv(s, src, was);
    var r := s.heap[p];
    assert GoodRequest(r, src, s.offset);
    if r.read && k < r.base { assert r.buffer[..r.base][k] == src[r.firstOffset..r.offset][k]; }
    if Passed(r, k) { assert k in s.written; }
  }

  /**
  The counters count the live blocks, each of which is queued or with the kernel, so a queue of DEPTH
  entries always has room.
  */
  lemma ReachableFitsRing(s: State, src: seq<Byte>, was: seq<Byte>)
    requires Reachable(s, src, was)
    ensures s.nReads + s.nWrites == |s.heap| == |s.staged| + |s.flying| <= 64 == DEPTH
    ensures s.nReads >= 0 && s.nWrites >= 0
    ensures s.writeLeft == s.insize + Sum(s.heap, ReadBytes)
    ensures s.nReads + s.nWrites < DEPTH ==> |s.staged| < DEPTH
  {
    ReachableInv(s, src, was);
    CountLive(s.heap);
    assert |s.staged + s.flying| == |s.staged| + |s.flying|;
    assert |s.heap.Keys| == |s.heap|;
  }

  /** A block that covers one 32 KiB chunk of the file, or what is left of it at the end. */
  ghost predicate IsChunk(r: Request, size: nat) {
    && r.firstOffset % 32768 == 0 && r.firstOffset < size
    && r.firstLen == if size - r.firstOffset < 32768 then size - r.firstOffset else 32768
  }

  ghost predicate Chunked(s: State, size: nat) {
    && s.offset + s.insize == size && (s.insize > 0 ==> s.offset % 32768 == 0)
    && forall p :: p in s.heap ==> IsChunk(s.heap[p], size)
  }

  lemma ChunkedStep(s: State, src: seq<Byte>, a: Action)
    requires Chunked(s, |src|) && Enabled(s, src, a)
    ensures Chunked(Apply(s, src, a), |src|)
  {
    var t := Apply(s, src, a);
    forall p | p in t.heap ensures IsChunk(t.heap[p], |src|) {
      if p in s.heap { assert IsChunk(s.heap[p], |src|); }
    }
  }

  lemma {:induction false} ChunkedRun(s: State, src: seq<Byte>, run: seq<Action>)
    requires Chunked(s, |src|) && IsRun(s, src, run)
    ensures Chunked(Last(s, src, run), |src|)
    decreases |run|
  {
    if run != [] {
      ChunkedStep(s, src, run[0]);
      ChunkedRun(Apply(s, src, run[0]), src, run[1..]);
    }
  }

  /** The file is cut at multiples of 32 KiB: every block ever live is one of these chunks, whatever the schedule. */
  lemma ReachableChunks(s: State, src: seq<Byte>, was: seq<Byte>, p: Ptr)
    requires Reachable(s, src, was) && p in s.heap
    ensures var r := s.heap[p];
      && r.firstOffset % 32768 == 0 && r.firstOffset < |src|
      && r.firstLen == if |src| - r.firstOffset < 32768 then |src| - r.firstOffset else 32768
  {
    var run :| IsRun(Init(|src|, was), src, run) && Last(Init(|src|, was), src, run) == s;
    ChunkedRun(Init(|src|, was), src, run);
    assert IsChunk(s.heap[p], |src|);
  }

  // ---------------------------------------------------------------- the wait

  /** The kernel can post a completion: of a request it holds, with some number of bytes or -EAGAIN. */
  ghost predicate Answered(s: State, src: seq<Byte>) {
    exists a: Action :: (a.DoAgain? || a.DoComplete?) && Enabled(s, src, a)
  }

  /** The blocking wait hangs exactly when no block is live, which is when bytes remain and the window is empty. */
  lemma WaitIsAnswered(s: State, src: seq<Byte>, was: seq<Byte>)
    requires Reachable(s, src, was) && s.staged == {} && s.writeLeft > 0
    ensures Answered(s, src) <==> s.heap != map[]
    ensures s.heap == map[] ==> s.insize == s.writeLeft && s.nReads + s.nWrites == 0
  {
    ReachableInv(s, src, was);
    CountLive(s.heap);
    if s.heap != map[] {
      var p :| p in s.heap;
      assert Enabled(s, src, DoAgain(p));
    }
  }

  /** Any file but the empty one: if the first allocation is refused, the wait that follows has no answer. */
  lemma FirstRefusalHangs(src: seq<Byte>, was: seq<Byte>)
    requires src != []
    ensures var s := Init(|src|, was);
      Reachable(s, src, was) && s.writeLeft > 0 && Submit(s) == s && !Answered(s, src)
  {
    InitReachable(src, was);
  }

  ghost predicate Finished(s: State) { s.insize == 0 && s.heap == map[] }

  /**
  Schedule independence: whatever the order of completions, their lengths and the retries, a finished
  run leaves the same destination and has moved every byte exactly twice.
  */
  lemma RunCopies(src: seq<Byte>, was: seq<Byte>, run: seq<Action>)
    requires IsRun(Init(|src|, was), src, run)
    requires Finished(Last(Init(|src|, was), src, run))
    ensures Last(Init(|src|, was), src, run).dest == CopyResult(src, was)
    ensures Moved(run) == 2 * |src|
  {
    InitInv(src, was);
    RunKeepsInv(Init(|src|, was), src, was, run);
    var t := Last(Init(|src|, was), src, run);
    forall k | 0 <= k < |src| ensures k in t.written {
      assert Covered(t, k);
    }
    WrittenIsCopied(t, src, was);
  }

  /** No unfinished state is stuck: a block can be queued, submitted, or completed. */
  lemma NeverStuck(src: seq<Byte>, was: seq<Byte>, run: seq<Action>)
    requires IsRun(Init(|src|, was), src, run)
    ensures var s := Last(Init(|src|, was), src, run);
      Finished(s) || s.staged != {} || 
      exists a: Action :: !a.DoSubmit? && !a.DoAgain? && Enabled(s, src, a)
  {
    InitInv(src, was);
    RunKeepsInv(Init(|src|, was), src, was, run);
    var s := Last(Init(|src|, was), src, run);
    if !Finished(s) && s.staged == {} {
      if s.heap == map[] {
        CountLive(s.heap);
        assert Enabled(s, src, DoFill(0, seq(ChunkSize(s.insize), _ => 0)));
      } else {
        var p :| p in s.heap;
        assert p in s.flying && GoodRequest(s.heap[p], src, s.offset);
        assert Enabled(s, src, DoComplete(p, 1));
      }
    }
  }

  /** The bound behind termination: no run has more completions than twice the file size. */
  function Completions(run: seq<Action>): nat {
    if run == [] then 0 else (if run[0].DoComplete? then 1 else 0) + Completions(run[1..])
  }

  lemma {:induction false} MovedBoundsCompletions(s: State, src: seq<Byte>, run: seq<Action>)
    requires IsRun(s, src, run)
    ensures Completions(run) <= Moved(run)
    decreases |run|
  {
    if run != [] {
      MovedBoundsCompletions(Apply(s, src, run[0]), src, run[1..]);
    }
  }

  lemma RunIsBounded(src: seq<Byte>, was: seq<Byte>, run: seq<Action>)
    requires IsRun(Init(|src|, was), src, run)
    ensures Completions(run) <= 2 * |src|
  {
    InitInv(src, was);
    RunKeepsInv(Init(|src|, was), src, was, run);
    MovedBoundsCompletions(Init(|src|, was), src, run);
  }

  // ---------------------------------------------------------------- the final drain

  /** A completion that the drain loop takes. */
  datatype Drained = Drained(p: Ptr, res: nat)

  /** The drain loop goes on while it counts writes; the kernel completes what it likes. */
  ghost predicate IsDrain(s: State, src: seq<Byte>, d: seq<Drained>)
    decreases |d|
  {
    d == [] || (s.nWrites > 0 && CanTransfer(s, src, d[0].p, d[0].res) &&
                IsDrain(OnDrain(s, src, d[0].p, d[0].res), src, d[1..]))
  }

  ghost function AfterDrain(s: State, src: seq<Byte>, d: seq<Drained>): State
    requires IsDrain(s, src, d)
    decreases |d|
  {
    if d == [] then s else AfterDrain(OnDrain(s, src, d[0].p, d[0].res), src, d[1..])
  }

  /** Every completion of the drain is as long as its request. */
  ghost predicate AllFull(s: State, src: seq<Byte>, d: seq<Drained>)
    requires IsDrain(s, src, d)
    decreases |d|
  {
    d == [] || (d[0].res == s.heap[d[0].p].len && AllFull(OnDrain(s, src, d[0].p, d[0].res), src, d[1..]))
  }

  /**
  The states in which control can reach the drain: the loop condition fails, or the submit that follows
  the fill loop does and leaves its reads queued.
  */
  ghost predicate LoopLeft(s: State, src: seq<Byte>, was: seq<Byte>) {
    && Reachable(s, src, was)
    && (if s.staged == {} then s.insize == 0 && s.writeLeft == 0
        else forall p :: p in s.staged ==> p in s.heap && s.heap[p].read)
  }

  /** A position that no outstanding request will write any more. */
  ghost predicate Lost(s: State, src: seq<Byte>, k: nat) {
    k < |src| && k !in s.written && forall p :: p in s.flying && p in s.heap ==> !Pending(s.heap[p], k)
  }

  /** What the drain loop keeps; `clean` when nothing has been lost. */
  ghost predicate DrainInv(s: State, src: seq<Byte>, was: seq<Byte>, clean: bool) {
    && Requests(s, src) && Disjoint(s) && Content(s, src, was)
    && s.flying <= s.heap.Keys && 0 <= s.nWrites <= |s.flying| && |s.staged| + |s.flying| <= DEPTH
    && (clean ==> Inv(s, src, was) && s.insize == 0 && s.staged == {} &&
                  s.nWrites == |s.heap| && forall p :: p in s.heap ==> !s.heap[p].read)
    && (!clean ==> exists k :: Lost(s, src, k))
  }

  lemma FullDrainStep(s: State, src: seq<Byte>, was: seq<Byte>, p: Ptr)
    requires DrainInv(s, src, was, true) && p in s.heap && CanTransfer(s, src, p, s.heap[p].len)
    ensures DrainInv(OnDrain(s, src, p, s.heap[p].len), src, was, true)
  {
    var t := OnDrain(s, src, p, s.heap[p].len);
    assert t == OnComplete(s, src, p, s.heap[p].len);
    WriteDoneKeepsInv(s, src, was, p);
    OnlyWrites(t.heap);
    assert t.flying == t.heap.Keys;
  }

  lemma DrainKeepsRest(s: State, src: seq<Byte>, was: seq<Byte>, p: Ptr, res: nat)
    requires Requests(s, src) && Disjoint(s) && Content(s, src, was)
    requires s.flying <= s.heap.Keys && 0 < s.nWrites <= |s.flying| && CanTransfer(s, src, p, res)
    ensures var t := OnDrain(s, src, p, res);
      && Requests(t, src) && Disjoint(t) && Content(t, src, was)
      && t.flying <= t.heap.Keys && 0 <= t.nWrites <= |t.flying| == |s.flying| - 1
  {
    assert GoodRequest(s.heap[p], src, s.offset);
    TransferContent(s, src, was, p, res);
    var t := OnDrain(s, src, p, res);
    forall q, k | q in t.heap && Pending(t.heap[q], k) ensures k !in t.written {
      assert q != p && Pending(s.heap[q], k);
      assert !Pending(s.heap[p], k);
    }
    forall k | k in t.written ensures k < t.offset {
      if k !in s.written { assert Pending(s.heap[p], k); }
    }
    assert t.flying == s.flying - {p};
  }

  /** A loss is permanent, and a short transfer in the drain is a loss. */
  lemma DrainLoses(s: State, src: seq<Byte>, was: seq<Byte>, clean: bool, p: Ptr, res: nat)
    requires DrainInv(s, src, was, clean) && CanTransfer(s, src, p, res)
    requires !clean || res < s.heap[p].len
    ensures exists k :: Lost(OnDrain(s, src, p, res), src, k)
  {
    var t := OnDrain(s, src, p, res);
    var r := s.heap[p];
    assert GoodRequest(r, src, s.offset);
    var k: nat := if clean then r.offset + res else var k :| Lost(s, src, k); k;
    if clean { assert Pending(r, k); }
    assert k !in t.written;
    forall q | q in t.flying && q in t.heap ensures !Pending(t.heap[q], k) {
      assert q != p && t.heap[q] == s.heap[q];
    }
    assert Lost(t, src, k);
  }

  lemma DrainStep(s: State, src: seq<Byte>, was: seq<Byte>, clean: bool, p: Ptr, res: nat)
    requires DrainInv(s, src, was, clean) && s.nWrites > 0 && CanTransfer(s, src, p, res)
    ensures DrainInv(OnDrain(s, src, p, res), src, was, clean && res == s.heap[p].len)
  {
    if clean && res == s.heap[p].len {
      FullDrainStep(s, src, was, p);
    } else {
      DrainKeepsRest(s, src, was, p, res);
      DrainLoses(s, src, was, clean, p, res);
    }
  }

  lemma {:induction false} DrainKeepsInv(s: State, src: seq<Byte>, was: seq<Byte>, clean: bool, d: seq<Drained>)
    requires DrainInv(s, src, was, clean) && IsDrain(s, src, d)
    ensures DrainInv(AfterDrain(s, src, d), src, was, clean && AllFull(s, src, d))
    decreases |d|
  {
    if d != [] {
      DrainStep(s, src, was, clean, d[0].p, d[0].res);
      DrainKeepsInv(OnDrain(s, src, d[0].p, d[0].res), src, was, clean && d[0].res == s.heap[d[0].p].len, d[1..]);
    }
  }

  lemma {:induction false} DrainExtends(s: State, src: seq<Byte>, d: seq<Drained>, p: Ptr, res: nat)
    requires IsDrain(s, src, d)
    requires AfterDrain(s, src, d).nWrites > 0 && CanTransfer(AfterDrain(s, src, d), src, p, res)
    ensures IsDrain(s, src, d + [Drained(p, res)])
    ensures AfterDrain(s, src, d + [Drained(p, res)]) == OnDrain(AfterDrain(s, src, d), src, p, res)
    decreases |d|
  {
    var e := d + [Drained(p, res)];
    if d == [] {
      assert e == [Drained(p, res)] && e[1..] == [];
      assert IsDrain(OnDrain(s, src, p, res), src, []);
    } else {
      DrainExtends(OnDrain(s, src, d[0].p, d[0].res), src, d[1..], p, res);
      assert e[1..] == d[1..] + [Drained(p, res)];
    }
  }

  /** The main loop ends normally: the drain starts with nothing lost. */
  lemma CleanDrain(s: State, src: seq<Byte>, was: seq<Byte>)
    requires Inv(s, src, was) && s.insize == 0 && s.writeLeft == 0 && s.staged == {}
    ensures DrainInv(s, src, was, true)
  {
    MainLoopExit(s, src, was);
    assert s.flying == s.heap.Keys;
    assert |s.heap.Keys| == |s.heap|;
  }

  /** A failed submit leaves the loop with queued reads that nobody will ever write. */
  lemma FailedSubmitDrain(s: State, src: seq<Byte>, was: seq<Byte>, p: Ptr)
    requires Inv(s, src, was) && p in s.staged && s.heap[p].read
    requires forall q :: q in s.staged ==> s.heap[q].read
    ensures DrainInv(s, src, was, false)
  {
    var k := s.heap[p].firstOffset;
    assert GoodRequest(s.heap[p], src, s.offset);
    assert Pending(s.heap[p], k);
    assert Lost(s, src, k);
    WritesAreFlying(s.heap, s.staged, s.flying);
    assert |s.staged + s.flying| == |s.staged| + |s.flying|;
    assert |s.heap.Keys| == |s.heap|;
  }

  lemma LoopLeftDrains(s: State, src: seq<Byte>, was: seq<Byte>)
    requires LoopLeft(s, src, was)
    ensures DrainInv(s, src, was, s.staged == {})
  {
    ReachableInv(s, src, was);
    if s.staged == {} {
      CleanDrain(s, src, was);
    } else {
      var p :| p in s.staged;
      FailedSubmitDrain(s, src, was, p);
    }
  }

  lemma {:induction false} WritesAreFlying(heap: map<Ptr, Request>, staged: set<Ptr>, flying: set<Ptr>)
    requires staged !! flying && staged + flying == heap.Keys
    requires forall q :: q in staged ==> heap[q].read
    ensures Sum(heap, WriteOne) <= |flying|
    decreases |heap|
  {
    if heap != map[] {
      var p :| p in heap;
      SumRemove(heap, WriteOne, p);
      WritesAreFlying(heap - {p}, staged - {p}, flying - {p});
      if p in flying {
        assert |flying - {p}| == |flying| - 1;
      } else {
        assert flying - {p} == flying;
      }
    }
  }

  /**
  Exactly when copy_file copies: whatever the main loop and the drain have met, once the drain has counted
  its writes down every position is written if and only if no submit of reads had failed and no completion
  of the drain was short; then the destination is determined and every block is free.
  */
  lemma DrainedIffFull(s: State, src: seq<Byte>, was: seq<Byte>, d: seq<Drained>)
    requires LoopLeft(s, src, was) && IsDrain(s, src, d) && AfterDrain(s, src, d).nWrites == 0
    ensures var t := AfterDrain(s, src, d);
      && ((s.staged == {} && AllFull(s, src, d)) <==> forall k :: 0 <= k < |src| ==> k in t.written)
      && (s.staged == {} && AllFull(s, src, d) ==> t.heap == map[] && t.dest == CopyResult(src, was))
  {
    var t, full := AfterDrain(s, src, d), AllFull(s, src, d);
    LoopLeftDrains(s, src, was);
    DrainKeepsInv(s, src, was, s.staged == {}, d);
    if s.staged == {} && full {
      DrainedClean(t, src, was);
    } else {
      var k :| Lost(t, src, k);
      assert k !in t.written;
    }
  }

  lemma DrainedClean(s: State, src: seq<Byte>, was: seq<Byte>)
    requires DrainInv(s, src, was, true) && s.nWrites == 0
    ensures forall k :: 0 <= k < |src| ==> k in s.written
    ensures s.heap == map[] && s.dest == CopyResult(src, was)
  {
    assert |s.heap| == 0;
    forall k | 0 <= k < |src| ensures k in s.written {
      assert Covered(s, k);
    }
    WrittenIsCopied(s, src, was);
  }

  // ---------------------------------------------------------------- runs that return 0 without a copy

  /** A two-byte file whose one block is with the kernel, as a read and then as a write. */
  function TwoByteRead(): State {
    State(0, 2, 2, 1, 0, map[0 := Request(true, 0, 0, 2, 0, 2, [0, 0])], {}, {0}, [], {})
  }

  function TwoByteWrite(): State {
    State(0, 2, 0, 0, 1, map[0 := Request(false, 0, 0, 2, 0, 2, [7, 8])], {}, {0}, [], {})
  }

  lemma TwoByteReadReached()
    ensures Reachable(TwoByteRead(), [7, 8], [])
  {
    InitReachable([7, 8], []);
    ReachableStep(Init(2, []), [7, 8], [], DoFill(0, [0, 0]));
    var s := Fill(Init(2, []), 0, [0, 0]);
    ReachableStep(s, [7, 8], [], DoSubmit);
    assert Submit(s) == TwoByteRead();
  }

  lemma TwoByteReadDone()
    ensures CanTransfer(TwoByteRead(), [7, 8], 0, 2)
    ensures OnComplete(TwoByteRead(), [7, 8], 0, 2) == TwoByteWrite()
  {
    var s := TwoByteRead();
    assert s.heap[0].buffer[..0] + [7, 8][0..2] + s.heap[0].buffer[2..] == [7, 8];
  }

  lemma TwoByteWriteLeft()
    ensures LoopLeft(TwoByteWrite(), [7, 8], [])
  {
    TwoByteReadReached();
    TwoByteReadDone();
    ReachableStep(TwoByteRead(), [7, 8], [], DoComplete(0, 2));
  }

  /** From there one short write ends the drain: copy_file returns 0 and the second byte is missing. */
  lemma ShortDrainTruncates()
    ensures var s, d := TwoByteWrite(), [Drained(0, 1)];
      && LoopLeft(s, [7, 8], []) && IsDrain(s, [7, 8], d) && !AllFull(s, [7, 8], d)
      && AfterDrain(s, [7, 8], d).nWrites == 0 && AfterDrain(s, [7, 8], d).dest == [7]
  {
    TwoByteWriteLeft();
    var s, d := TwoByteWrite(), [Drained(0, 1)];
    assert d[1..] == [] && IsDrain(OnDrain(s, [7, 8], 0, 1), [7, 8], d[1..]);
  }

  /** A one-byte file whose first submit fails: no write is counted, so copy_file returns 0 at once. */
  lemma FailedSubmitCopiesNothing()
    ensures var s := Fill(Init(1, []), 0, [0]);
      LoopLeft(s, [7], []) && s.nWrites == 0 && s.staged != {} && s.dest == []
  {
    InitReachable([7], []);
    ReachableStep(Init(1, []), [7], [], DoFill(0, [0]));
  }
}
