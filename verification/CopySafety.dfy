/** Every step of the copy engine keeps its invariant, on every schedule. */
module CopySafety {
  import opened Common
  import opened CopyModel

  lemma SumsPut(heap: map<Ptr, Request>, p: Ptr, r: Request)
    requires p !in heap
    ensures Sum(heap[p := r], ReadBytes) == Sum(heap, ReadBytes) + ReadBytes(r)
    ensures Sum(heap[p := r], ReadOne) == Sum(heap, ReadOne) + ReadOne(r)
    ensures Sum(heap[p := r], WriteOne) == Sum(heap, WriteOne) + WriteOne(r)
    ensures Sum(heap[p := r], Work) == Sum(heap, Work) + Work(r)
  {
    SumFresh(heap, ReadBytes, p, r);
    SumFresh(heap, ReadOne, p, r);
    SumFresh(heap, WriteOne, p, r);
    SumFresh(heap, Work, p, r);
  }

  lemma SumsUpdate(heap: map<Ptr, Request>, p: Ptr, r: Request)
    requires p in heap
    ensures Sum(heap[p := r], ReadBytes) == Sum(heap, ReadBytes) - ReadBytes(heap[p]) + ReadBytes(r)
    ensures Sum(heap[p := r], ReadOne) == Sum(heap, ReadOne) - ReadOne(heap[p]) + ReadOne(r)
    ensures Sum(heap[p := r], WriteOne) == Sum(heap, WriteOne) - WriteOne(heap[p]) + WriteOne(r)
    ensures Sum(heap[p := r], Work) == Sum(heap, Work) - Work(heap[p]) + Work(r)
  {
    SumUpdate(heap, ReadBytes, p, r);
    SumUpdate(heap, ReadOne, p, r);
    SumUpdate(heap, WriteOne, p, r);
    SumUpdate(heap, Work, p, r);
  }

  lemma SumsRemove(heap: map<Ptr, Request>, p: Ptr)
    requires p in heap
    ensures Sum(heap - {p}, ReadBytes) == Sum(heap, ReadBytes) - ReadBytes(heap[p])
    ensures Sum(heap - {p}, ReadOne) == Sum(heap, ReadOne) - ReadOne(heap[p])
    ensures Sum(heap - {p}, WriteOne) == Sum(heap, WriteOne) - WriteOne(heap[p])
    ensures Sum(heap - {p}, Work) == Sum(heap, Work) - Work(heap[p])
  {
    SumRemove(heap, ReadBytes, p);
    SumRemove(heap, ReadOne, p);
    SumRemove(heap, WriteOne, p);
    SumRemove(heap, Work, p);
  }

  /** No completion leaves an unwritten position before the cursor of a write. */
  lemma BehindIsKept(s: State, src: seq<Byte>, p: Ptr, res: nat)
    requires Behind(s) && CanTransfer(s, src, p, res)
    ensures Behind(OnComplete(s, src, p, res))
  {}

  /** The effect of a step on the tiling when it changes one block and nothing else is forgotten. */
  lemma TilingKept(s: State, t: State, p: Ptr)
    requires Disjoint(s) && NoGap(s) && s.offset == t.offset
    requires p in s.heap && s.heap.Keys - {p} <= t.heap.Keys <= s.heap.Keys
    requires forall q :: q in t.heap && q != p ==> t.heap[q] == s.heap[q]
    requires forall k :: k in t.written ==> k in s.written || Pending(s.heap[p], k)
    requires forall k :: k in s.written ==> k in t.written
    requires forall k :: Pending(s.heap[p], k) ==> k < s.offset
    requires forall k :: Pending(s.heap[p], k) <==>
      (k in t.written && k !in s.written) || (p in t.heap && Pending(t.heap[p], k))
    requires p in t.heap ==> forall k :: Pending(t.heap[p], k) ==> k !in t.written
    ensures Disjoint(t) && NoGap(t)
  {
    forall k | 0 <= k < t.offset ensures Covered(t, k) {
      assert Covered(s, k);
      if k !in s.written {
        var q :| q in s.heap && Pending(s.heap[q], k);
        if q != p { assert Pending(t.heap[q], k); }
      }
    }
    forall q, k | q in t.heap && Pending(t.heap[q], k) ensures k !in t.written {
      if q != p { assert Pending(s.heap[q], k); }
    }
    forall a, b, k | a in t.heap && b in t.heap && Pending(t.heap[a], k) && Pending(t.heap[b], k)
      ensures a == b
    {
      assert Pending(s.heap[a], k) && Pending(s.heap[b], k);
    }
  }

  lemma FillKeepsTiling(s: State, src: seq<Byte>, p: Ptr, garbage: seq<Byte>)
    requires s.insize > 0 && p !in s.heap
    requires Requests(s, src) && Disjoint(s) && NoGap(s)
    ensures Disjoint(Fill(s, p, garbage)) && NoGap(Fill(s, p, garbage))
  {
    var t := Fill(s, p, garbage);
    forall q, k | q in s.heap && Pending(s.heap[q], k) ensures k < s.offset {
      assert GoodRequest(s.heap[q], src, s.offset);
    }
    forall k | 0 <= k < t.offset ensures Covered(t, k) {
      if k < s.offset {
        assert Covered(s, k);
        if k !in s.written {
          var q :| q in s.heap && Pending(s.heap[q], k);
          assert Pending(t.heap[q], k);
        }
      } else {
        assert Pending(t.heap[p], k);
      }
    }
  }

  lemma FillKeepsCounts(s: State, src: seq<Byte>, p: Ptr, garbage: seq<Byte>)
    requires s.insize > 0 && p !in s.heap && |s.heap| < DEPTH
    requires Counters(s, src) && Queues(s)
    ensures Counters(Fill(s, p, garbage), src) && Queues(Fill(s, p, garbage))
    ensures |Fill(s, p, garbage).staged| == |s.staged| + 1
  {
    var t := Fill(s, p, garbage);
    SumsPut(s.heap, p, t.heap[p]);
    assert t.heap.Keys == s.heap.Keys + {p};
  }

  /** queue_read with a block that malloc returned, and the bookkeeping after it. */
  lemma FillKeepsInv(s: State, src: seq<Byte>, was: seq<Byte>, p: Ptr, garbage: seq<Byte>)
    requires Inv(s, src, was) && s.insize > 0 && p !in s.heap && |s.heap| < DEPTH
    requires |garbage| == ChunkSize(s.insize)
    ensures Inv(Fill(s, p, garbage), src, was)
    ensures |Fill(s, p, garbage).staged| == |s.staged| + 1
  {
    FillKeepsTiling(s, src, p, garbage);
    FillKeepsCounts(s, src, p, garbage);
    var t := Fill(s, p, garbage);
    assert Requests(t, src) by {
      forall q | q in t.heap ensures GoodRequest(t.heap[q], src, t.offset) {
        if q != p { assert GoodRequest(s.heap[q], src, s.offset); }
      }
    }
  }

  lemma SubmitKeepsInv(s: State, src: seq<Byte>, was: seq<Byte>)
    requires Inv(s, src, was)
    ensures Inv(Submit(s), src, was)
  {
    forall k | 0 <= k < s.offset ensures Covered(Submit(s), k) {
      assert Covered(s, k);
    }
  }

  lemma AgainKeepsInv(s: State, src: seq<Byte>, was: seq<Byte>, p: Ptr)
    requires Inv(s, src, was) && p in s.flying
    ensures Inv(OnAgain(s, p), src, was)
  {
    var t := OnAgain(s, p);
    forall k | 0 <= k < s.offset ensures Covered(t, k) {
      assert Covered(s, k);
    }
  }

  /** A transfer extends the destination or the buffer by source bytes at their own position. */
  lemma TransferContent(s: State, src: seq<Byte>, was: seq<Byte>, p: Ptr, res: nat)
    requires CanTransfer(s, src, p, res) && Content(s, src, was)
    requires GoodRequest(s.heap[p], src, s.offset)
    ensures Content(Transfer(s, src, p, res), src, was)
    ensures var r := s.heap[p];
      r.read ==> Transfer(s, src, p, res).heap[p].buffer[..r.base + res] == src[r.firstOffset..r.offset + res]
  {
    var r := s.heap[p];
    var t := Transfer(s, src, p, res);
    if !r.read {
      var data := r.buffer[r.base..r.base + res];
      assert forall i :: 0 <= i < res ==> data[i] == src[r.offset + i];
      forall k | k in t.written ensures k < |t.dest| && k < |src| && t.dest[k] == src[k] {
        if k in Range(r.offset, res) {
          assert data[k - r.offset] == src[r.offset + (k - r.offset)];
        } else {
          assert k in s.written;
        }
      }
    }
  }

  /** After a short transfer the cursors agree, and the bytes behind them are the source's. */
  lemma ShortKeepsRequest(s: State, src: seq<Byte>, was: seq<Byte>, p: Ptr, res: nat)
    requires CanTransfer(s, src, p, res) && res < s.heap[p].len
    requires GoodRequest(s.heap[p], src, s.offset) && Content(s, src, was)
    requires forall k :: Passed(s.heap[p], k) ==> k in s.written
    ensures var t := OnComplete(s, src, p, res);
      && t.heap == s.heap[p := t.heap[p]]
      && GoodRequest(t.heap[p], src, s.offset) && Content(t, src, was)
      && ReadBytes(t.heap[p]) == ReadBytes(s.heap[p])
      && ReadOne(t.heap[p]) == ReadOne(s.heap[p]) && WriteOne(t.heap[p]) == WriteOne(s.heap[p])
      && Work(t.heap[p]) == Work(s.heap[p]) - res
      && t.insize == s.insize && t.writeLeft == s.writeLeft && t.offset == s.offset
      && t.nReads == s.nReads && t.nWrites == s.nWrites
      && forall k :: Passed(t.heap[p], k) ==> k in t.written && k < |t.dest| && k < |src| && t.dest[k] == src[k]
  {
    TransferContent(s, src, was, p, res);
  }

  lemma ShortKeepsTiling(s: State, src: seq<Byte>, p: Ptr, res: nat)
    requires CanTransfer(s, src, p, res) && res < s.heap[p].len
    requires GoodRequest(s.heap[p], src, s.offset) && Disjoint(s) && NoGap(s)
    ensures var t := OnComplete(s, src, p, res); Disjoint(t) && NoGap(t)
  {
    TilingKept(s, OnComplete(s, src, p, res), p);
  }

  lemma OneBlockCounts(s: State, t: State, src: seq<Byte>, p: Ptr)
    requires p in s.heap && p in t.heap && t.heap == s.heap[p := t.heap[p]]
    requires Counters(s, src) && t.insize == s.insize && t.offset == s.offset
    requires t.nReads == s.nReads - ReadOne(s.heap[p]) + ReadOne(t.heap[p])
    requires t.nWrites == s.nWrites - WriteOne(s.heap[p]) + WriteOne(t.heap[p])
    requires t.writeLeft == s.writeLeft - ReadBytes(s.heap[p]) + ReadBytes(t.heap[p])
    ensures Counters(t, src)
    ensures Sum(t.heap, Work) == Sum(s.heap, Work) - Work(s.heap[p]) + Work(t.heap[p])
  {
    SumsUpdate(s.heap, p, t.heap[p]);
  }

  lemma OneBlockQueued(s: State, t: State, src: seq<Byte>, p: Ptr)
    requires p in s.flying && p in s.heap && p in t.heap && t.heap == s.heap[p := t.heap[p]]
    requires Queues(s) && Requests(s, src) && t.offset == s.offset
    requires GoodRequest(t.heap[p], src, t.offset)
    requires t.staged == {} && t.flying == s.flying - {p} + (s.staged + {p})
    ensures Queues(t) && Requests(t, src)
  {
    assert t.heap.Keys == s.heap.Keys;
  }

  lemma ShortKeepsRest(s: State, src: seq<Byte>, was: seq<Byte>, p: Ptr, res: nat)
    requires Requests(s, src) && Behind(s) && Content(s, src, was) && Counters(s, src) && Queues(s)
    requires CanTransfer(s, src, p, res) && res < s.heap[p].len
    ensures var t := OnComplete(s, src, p, res);
      && Requests(t, src) && Content(t, src, was) && Counters(t, src) && Queues(t)
      && Sum(t.heap, Work) == Sum(s.heap, Work) - res
  {
    var t := OnComplete(s, src, p, res);
    ShortKeepsRequest(s, src, was, p, res);
    OneBlockCounts(s, t, src, p);
    OneBlockQueued(s, t, src, p);
  }

  lemma ShortKeepsInv(s: State, src: seq<Byte>, was: seq<Byte>, p: Ptr, res: nat)
    requires Inv(s, src, was) && CanTransfer(s, src, p, res) && res < s.heap[p].len
    ensures var t := OnComplete(s, src, p, res);
      Inv(t, src, was) && Sum(t.heap, Work) == Sum(s.heap, Work) - res
  {
    ShortKeepsRest(s, src, was, p, res);
    ShortKeepsTiling(s, src, p, res);
    BehindIsKept(s, src, p, res);
  }

  lemma ReadDoneKeepsRequest(s: State, src: seq<Byte>, was: seq<Byte>, p: Ptr)
    requires p in s.heap && s.heap[p].read && CanTransfer(s, src, p, s.heap[p].len)
    requires GoodRequest(s.heap[p], src, s.offset) && Content(s, src, was)
    ensures var t := OnComplete(s, src, p, s.heap[p].len);
      && t.heap == s.heap[p := t.heap[p]]
      && GoodRequest(t.heap[p], src, s.offset) && Content(t, src, was)
      && !t.heap[p].read && t.heap[p].len == t.heap[p].firstLen == s.heap[p].firstLen
  {}

  lemma ReadDoneKeepsTiling(s: State, src: seq<Byte>, p: Ptr)
    requires p in s.heap && s.heap[p].read && CanTransfer(s, src, p, s.heap[p].len)
    requires GoodRequest(s.heap[p], src, s.offset) && Disjoint(s) && NoGap(s)
    ensures var t := OnComplete(s, src, p, s.heap[p].len); Disjoint(t) && NoGap(t)
  {
    TilingKept(s, OnComplete(s, src, p, s.heap[p].len), p);
  }

  lemma ReadDoneKeepsInv(s: State, src: seq<Byte>, was: seq<Byte>, p: Ptr)
    requires Inv(s, src, was) && p in s.heap && s.heap[p].read
    requires CanTransfer(s, src, p, s.heap[p].len)
    ensures var t := OnComplete(s, src, p, s.heap[p].len);
      Inv(t, src, was) && Sum(t.heap, Work) == Sum(s.heap, Work) - s.heap[p].len
  {
    var t := OnComplete(s, src, p, s.heap[p].len);
    ReadDoneKeepsRequest(s, src, was, p);
    ReadDoneKeepsTiling(s, src, p);
    BehindIsKept(s, src, p, s.heap[p].len);
    OneBlockCounts(s, t, src, p);
    OneBlockQueued(s, t, src, p);
  }

  lemma FreeKeepsTiling(s: State, src: seq<Byte>, p: Ptr)
    requires p in s.heap && !s.heap[p].read && CanTransfer(s, src, p, s.heap[p].len)
    requires GoodRequest(s.heap[p], src, s.offset) && Disjoint(s) && NoGap(s)
    ensures var t := OnComplete(s, src, p, s.heap[p].len); Disjoint(t) && NoGap(t)
  {
    TilingKept(s, OnComplete(s, src, p, s.heap[p].len), p);
  }

  lemma FreeKeepsRest(s: State, src: seq<Byte>, was: seq<Byte>, p: Ptr)
    requires Requests(s, src) && Content(s, src, was) && Counters(s, src) && Queues(s)
    requires p in s.heap && !s.heap[p].read && CanTransfer(s, src, p, s.heap[p].len)
    ensures var t := OnComplete(s, src, p, s.heap[p].len);
      && Requests(t, src) && Content(t, src, was) && Counters(t, src) && Queues(t)
      && Sum(t.heap, Work) == Sum(s.heap, Work) - s.heap[p].len
  {
    var t := OnComplete(s, src, p, s.heap[p].len);
    assert GoodRequest(s.heap[p], src, s.offset);
    TransferContent(s, src, was, p, s.heap[p].len);
    SumsRemove(s.heap, p);
    assert t.heap == s.heap - {p};
    assert t.heap.Keys == s.heap.Keys - {p};
  }

  lemma WriteDoneKeepsInv(s: State, src: seq<Byte>, was: seq<Byte>, p: Ptr)
    requires Inv(s, src, was) && p in s.heap && !s.heap[p].read
    requires CanTransfer(s, src, p, s.heap[p].len)
    ensures var t := OnComplete(s, src, p, s.heap[p].len);
      Inv(t, src, was) && Sum(t.heap, Work) == Sum(s.heap, Work) - s.heap[p].len
  {
    FreeKeepsRest(s, src, was, p);
    FreeKeepsTiling(s, src, p);
    BehindIsKept(s, src, p, s.heap[p].len);
  }

  /** Any completion of any outstanding request keeps the invariant and uses up `res` bytes of work. */
  lemma CompleteKeepsInv(s: State, src: seq<Byte>, was: seq<Byte>, p: Ptr, res: nat)
    requires Inv(s, src, was) && CanTransfer(s, src, p, res)
    ensures var t := OnComplete(s, src, p, res);
      Inv(t, src, was) && Sum(t.heap, Work) == Sum(s.heap, Work) - res
  {
    if res != s.heap[p].len {
      ShortKeepsInv(s, src, was, p, res);
    } else if s.heap[p].read {
      ReadDoneKeepsInv(s, src, was, p);
    } else {
      WriteDoneKeepsInv(s, src, was, p);
    }
  }
}
