/**
The copy engine of io_uring/file_uring2.c as a transition system on values: the variables of
copy_file, the request blocks it has allocated, the submission queue, the requests the kernel
holds, and the destination file.
*/
module CopyModel {
  import opened Common

  const BUF_SIZE: nat := 32 * 1024
  const DEPTH: nat := 64

  /** struct io_data; `base` is iov_base relative to the buffer behind the block, `len` is iov_len. */
  datatype Request = Request(
    read: bool, firstOffset: nat, offset: nat, firstLen: nat, base: nat, len: nat, buffer: seq<Byte>)

  /** `written` records the positions that completed writes have reported as transferred. */
  datatype State = State(
    insize: nat, offset: nat, writeLeft: int, nReads: int, nWrites: int,
    heap: map<Ptr, Request>, staged: set<Ptr>, flying: set<Ptr>,
    dest: seq<Byte>, written: set<nat>)

  function Range(lo: nat, len: nat): (r: set<nat>)
    ensures forall k :: k in r <==> lo <= k < lo + len
  {
    if len == 0 then {} else Range(lo, len - 1) + {lo + len - 1}
  }

  function Max(a: nat, b: nat): nat { if a < b then b else a }

  /** pwrite on a regular file: bytes skipped beyond the old end read as zero. */
  function WriteAt(file: seq<Byte>, off: nat, data: seq<Byte>): (r: seq<Byte>)
    requires data != []
    ensures |r| == Max(|file|, off + |data|)
    ensures forall k :: 0 <= k < |r| ==>
      r[k] == if off <= k < off + |data| then data[k - off] else if k < |file| then file[k] else 0
  {
    seq(Max(|file|, off + |data|), k requires k >= 0 =>
      if off <= k < off + |data| then data[k - off] else if k < |file| then file[k] else 0)
  }

  /** Reading back at the place of a write gives the data written. */
  lemma WriteReadsBack(file: seq<Byte>, off: nat, data: seq<Byte>)
    requires data != []
    ensures |WriteAt(file, off, data)| >= off + |data|
    ensures WriteAt(file, off, data)[off..off + |data|] == data
  {}

  /** The order of two writes to disjoint ranges does not matter, even where one of them extends the file. */
  lemma DisjointWritesCommute(file: seq<Byte>, off: nat, data: seq<Byte>, off': nat, data': seq<Byte>)
    requires data != [] && data' != [] && (off + |data| <= off' || off' + |data'| <= off)
    ensures WriteAt(WriteAt(file, off, data), off', data') == WriteAt(WriteAt(file, off', data'), off, data)
  {}

  // ---------------------------------------------------------------- operations

  function Init(n: nat, dest: seq<Byte>): State {
    State(n, 0, n, 0, 0, map[], {}, {}, dest, {})
  }

  /** io_uring_get_sqe followed by a prep: the request waits in the submission queue. */
  function Stage(s: State, p: Ptr): State {
    s.(staged := s.staged + {p})
  }

  /** A successful io_uring_submit hands every staged request to the kernel. */
  function Submit(s: State): State {
    s.(flying := s.flying + s.staged, staged := {})
  }

  /** The size the fill loop asks for. */
  function ChunkSize(insize: nat): nat {
    if insize > BUF_SIZE then BUF_SIZE else insize
  }

  function NewRead(size: nat, offset: nat, garbage: seq<Byte>): Request {
    Request(true, offset, offset, size, 0, size, garbage)
  }

  /** One pass of the fill loop whose queue_read got block `p` (with arbitrary contents). */
  function Fill(s: State, p: Ptr, garbage: seq<Byte>): State
    requires s.insize > 0
  {
    var size := ChunkSize(s.insize);
    Stage(s.(heap := s.heap[p := NewRead(size, s.offset, garbage)],
             insize := s.insize - size, offset := s.offset + size, nReads := s.nReads + 1), p)
  }

  /** The kernel transfers `res` bytes for `p` and posts its completion. */
  function Transfer(s: State, src: seq<Byte>, p: Ptr, res: nat): State
    requires p in s.heap
    requires var r := s.heap[p];
      0 < res <= r.len && r.base + r.len <= |r.buffer| && (r.read ==> r.offset + r.len <= |src|)
  {
    var r := s.heap[p];
    var t := s.(flying := s.flying - {p});
    if r.read then
      t.(heap := t.heap[p := r.(buffer :=
        r.buffer[..r.base] + src[r.offset..r.offset + res] + r.buffer[r.base + res..])])
    else
      t.(dest := WriteAt(s.dest, r.offset, r.buffer[r.base..r.base + res]),
         written := s.written + Range(r.offset, res))
  }

  /** A short transfer moves the request's cursor. */
  function Advance(s: State, p: Ptr, res: nat): State
    requires p in s.heap && res <= s.heap[p].len
  {
    var r := s.heap[p];
    s.(heap := s.heap[p := r.(base := r.base + res, len := r.len - res, offset := r.offset + res)])
  }

  /** queue_write up to its submit: the finished read is rewound and becomes a write of the same block. */
  function Rewind(s: State, p: Ptr): State
    requires p in s.heap
  {
    var r := s.heap[p];
    s.(heap := s.heap[p := r.(read := false, offset := r.firstOffset, base := 0, len := r.firstLen)])
  }

  function Free(s: State, p: Ptr): State
    requires p in s.heap
  {
    s.(heap := s.heap - {p})
  }

  ghost predicate CanTransfer(s: State, src: seq<Byte>, p: Ptr, res: nat) {
    && p in s.flying && p in s.heap
    && var r := s.heap[p];
    && 0 < res <= r.len && r.base + r.len <= |r.buffer|
    && (r.read ==> r.offset + r.len <= |src|)
  }

  // ------------------------------------------------- what the completion loop does with one completion

  /** -EAGAIN: the same request is queued again. */
  function OnAgain(s: State, p: Ptr): State {
    Submit(Stage(s.(flying := s.flying - {p}), p))
  }

  /** What the completion loop does once the kernel has transferred `res` bytes for `p`. */
  function React(t: State, p: Ptr, res: nat): State
    requires p in t.heap && 0 < res <= t.heap[p].len
  {
    if res != t.heap[p].len then
      Submit(Stage(Advance(t, p, res), p))
    else if t.heap[p].read then
      var u := Submit(Stage(Rewind(t, p), p));
      u.(writeLeft := u.writeLeft - u.heap[p].firstLen, nReads := u.nReads - 1, nWrites := u.nWrites + 1)
    else
      Free(t, p).(nWrites := t.nWrites - 1)
  }

  /** One pass of the completion loop for a completion that carries `res` bytes. */
  function OnComplete(s: State, src: seq<Byte>, p: Ptr, res: nat): State
    requires CanTransfer(s, src, p, res)
  {
    React(Transfer(s, src, p, res), p, res)
  }

  /** One pass of the drain loop: the block is freed whatever it is and however short the transfer was. */
  function OnDrain(s: State, src: seq<Byte>, p: Ptr, res: nat): State
    requires CanTransfer(s, src, p, res)
  {
    var t := Free(Transfer(s, src, p, res), p);
    t.(nWrites := t.nWrites - 1)
  }

  // ---------------------------------------------------------------- invariant

  function ReadOne(r: Request): nat { if r.read then 1 else 0 }
  function WriteOne(r: Request): nat { if r.read then 0 else 1 }
  function ReadBytes(r: Request): nat { if r.read then r.firstLen else 0 }

  /** Bytes still to be moved on behalf of a block, counting the write a read turns into. */
  function Work(r: Request): nat { r.len + if r.read then r.firstLen else 0 }

  /** The cursor of a request and the bytes behind it. */
  ghost predicate GoodRequest(r: Request, src: seq<Byte>, offset: nat) {
    && 0 < r.len <= r.firstLen <= BUF_SIZE
    && r.firstOffset + r.firstLen <= offset <= |src|
    && |r.buffer| == r.firstLen
    && r.offset - r.firstOffset == r.base == r.firstLen - r.len
    && (r.read ==> r.buffer[..r.base] == src[r.firstOffset..r.offset])
    && (!r.read ==> r.buffer == src[r.firstOffset..r.firstOffset + r.firstLen])
  }

  /** Position `k` still has to be written on behalf of this block. */
  ghost predicate Pending(r: Request, k: int) {
    if r.read then r.firstOffset <= k < r.firstOffset + r.firstLen
    else r.offset <= k < r.offset + r.len
  }

  ghost predicate Requests(s: State, src: seq<Byte>) {
    forall p :: p in s.heap ==> GoodRequest(s.heap[p], src, s.offset)
  }

  ghost predicate Disjoint(s: State) {
    && (forall k :: k in s.written ==> k < s.offset)
    && (forall p, k :: p in s.heap && Pending(s.heap[p], k) ==> k !in s.written)
    && (forall p, q, k :: p in s.heap && q in s.heap && Pending(s.heap[p], k) && Pending(s.heap[q], k)
          ==> p == q)
  }

  ghost predicate Covered(s: State, k: nat) {
    k in s.written || exists p :: p in s.heap && Pending(s.heap[p], k)
  }

  /** No position handed out so far has been forgotten. */
  ghost predicate NoGap(s: State) {
    forall k :: 0 <= k < s.offset ==> Covered(s, k)
  }

  /** Position `k` lies before the cursor of a write. */
  ghost predicate Passed(r: Request, k: int) { !r.read && r.firstOffset <= k < r.offset }

  /** What lies before the cursor of a write has been written. */
  ghost predicate Behind(s: State) {
    forall p, k :: p in s.heap && Passed(s.heap[p], k) ==> k in s.written
  }

  ghost predicate Content(s: State, src: seq<Byte>, was: seq<Byte>) {
    && |was| <= |s.dest| <= Max(|was|, |src|)
    && (forall k :: k in s.written ==> k < |s.dest| && k < |src| && s.dest[k] == src[k])
    && (forall k :: |src| <= k < |s.dest| ==> s.dest[k] == was[k])
  }

  ghost predicate Counters(s: State, src: seq<Byte>) {
    && s.offset + s.insize == |src|
    && s.writeLeft == s.insize + Sum(s.heap, ReadBytes)
    && s.nReads == Sum(s.heap, ReadOne)
    && s.nWrites == Sum(s.heap, WriteOne)
  }

  /** Every live block is queued or held by the kernel, once. */
  ghost predicate Queues(s: State) {
    && s.staged !! s.flying
    && s.staged + s.flying == s.heap.Keys
    && |s.heap| <= DEPTH
  }

  /** What every step of the main loop keeps; `was` is the destination at the start. */
  ghost predicate Inv(s: State, src: seq<Byte>, was: seq<Byte>) {
    && Requests(s, src) && Disjoint(s) && NoGap(s) && Behind(s)
    && Content(s, src, was) && Counters(s, src) && Queues(s)
  }

  lemma InitInv(src: seq<Byte>, dest: seq<Byte>)
    ensures Inv(Init(|src|, dest), src, dest)
  {}

  lemma {:induction false} CountLive(heap: map<Ptr, Request>)
    ensures Sum(heap, ReadOne) + Sum(heap, WriteOne) == |heap|
    decreases |heap|
  {
    if heap != map[] {
      var p :| p in heap;
      SumRemove(heap, ReadOne, p);
      SumRemove(heap, WriteOne, p);
      CountLive(heap - {p});
    }
  }
}
