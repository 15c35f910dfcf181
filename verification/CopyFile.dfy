/**
copy_file of io_uring/file_uring2.c with its loops. The kernel is demonic: it completes any request it
holds, with any positive length, may answer -EAGAIN any finite number of times, and may fail.
*/
module CopyFile {
  import opened Common
  import opened CopyModel
  import opened CopySafety
  import opened CopyRuns

  const EAGAIN: int := 11

  /** How copy_file ends: it returns, or blocks for ever in a wait that nothing will answer. */
  datatype Outcome = Returned(ret: int) | Blocked

  /** A call of malloc: whether it was granted, and whether no request was live at the time. */
  datatype Alloc = Alloc(granted: bool, idle: bool)

  /** Where a completion is asked for: by the wait or the peek of the completion loop, or by the drain. */
  datatype Caller = MainWait | MainPeek | DrainWait

  /** An answer of the ring: the call's own result and, when that is 0, what the completion reports. */
  datatype Reply = Reply(caller: Caller, ret: int, res: int)

  /**
  The answers that copy_file gives up on: a failed call, unless it is a peek that finds nothing, and a
  failed completion, unless it is an -EAGAIN in the completion loop.
  */
  predicate Fatal(r: Reply) {
    if r.ret != 0 then !(r.caller == MainPeek && r.ret == -EAGAIN)
    else r.res < 0 && !(r.caller != DrainWait && r.res == -EAGAIN)
  }

  ghost predicate SomeFatal(replies: seq<Reply>) {
    exists i :: 0 <= i < |replies| && Fatal(replies[i])
  }

  lemma OneMoreReply(log: seq<Reply>, r: Reply)
    ensures SomeFatal(log + [r]) <==> SomeFatal(log) || Fatal(r)
  {
    var more := log + [r];
    assert more[|log|] == r && forall i :: 0 <= i < |log| ==> more[i] == log[i];
  }

  ghost predicate AllSucceeded(submits: seq<int>) {
    forall i :: 0 <= i < |submits| ==> submits[i] >= 0
  }

  ghost predicate IdleRefusal(mallocs: seq<Alloc>) {
    exists i :: 0 <= i < |mallocs| && mallocs[i] == Alloc(false, true)
  }

  lemma OneMoreAlloc(log: seq<Alloc>, a: Alloc)
    ensures IdleRefusal(log + [a]) <==> IdleRefusal(log) || a == Alloc(false, true)
  {
    var more := log + [a];
    assert more[|log|] == a && forall i :: 0 <= i < |log| ==> more[i] == log[i];
  }

  class CopyEngine {
    const src: seq<Byte>

    // The variables of copy_file
    var insize: nat
    var offset: nat
    var writeLeft: int
    var nReads: int
    var nWrites: int

    // The request blocks, the ring and the destination
    var heap: map<Ptr, Request>
    var staged: set<Ptr>
    var flying: set<Ptr>
    var dest: seq<Byte>
    ghost var written: set<nat>

    /** The completion that has been read but not yet marked as seen. */
    var unseen: nat

    // What the environment has answered: to malloc, to the submit of line 124, to waits and peeks; and the
    // completions the drain took
    ghost var mallocs: seq<Alloc>
    ghost var replies: seq<Reply>
    ghost var submits: seq<int>
    ghost var drained: seq<Drained>

    /** How many more times the kernel will answer -EAGAIN. */
    var agains: nat

    ghost function State(): State
      reads this
    {
      CopyModel.State.State(insize, offset, writeLeft, nReads, nWrites, heap, staged, flying, dest, written)
    }

    /** The state is one that some schedule of the transition system leads to. */
    ghost predicate Valid(was: seq<Byte>)
      reads this
    {
      Reachable(State(), src, was) && unseen == 0
    }

    ghost function Measure(): nat
      reads this
    {
      Remaining(State()) + agains
    }

    constructor (src: seq<Byte>, dest: seq<Byte>, agains: nat)
      ensures this.src == src && this.agains == agains
      ensures State() == Init(|src|, dest)
      ensures unseen == 0 && mallocs == [] && replies == [] && submits == [] && drained == []
    {
      this.src := src;
      insize, offset, writeLeft, nReads, nWrites := |src|, 0, |src|, 0, 0;
      heap, staged, flying := map[], {}, {};
      this.dest, this.agains := dest, agains;
      written := {};
      unseen, mallocs, replies, submits, drained := 0, [], [], [], [];
    }

    /** malloc: an address that is not in use, or nothing. */
    method Malloc() returns (p: Option<Ptr>)
      modifies this`mallocs
      ensures p.Some? ==> p.value !in heap
      ensures mallocs == old(mallocs) + [Alloc(p.Some?, heap == map[])]
    {
      var q: Ptr := *;
      p := if q in heap then None else Some(q);
      mallocs := mallocs + [Alloc(p.Some?, heap == map[])];
    }

    /** io_uring_submit where its result is ignored. */
    method SubmitQueued()
      modifies this`staged, this`flying
      ensures State() == Submit(old(State()))
    {
      flying, staged := flying + staged, {};
    }

    /** The submit of line 124, the only one whose result is looked at. */
    method SubmitChecked() returns (ret: int)
      modifies this`staged, this`flying, this`submits
      ensures submits == old(submits) + [ret]
      ensures ret >= 0 ==> State() == Submit(old(State()))
      ensures ret < 0 ==> State() == old(State())
    {
      ret := *;
      submits := submits + [ret];
      if ret >= 0 {
        SubmitQueued();
      }
    }

    /** queue_prepped dereferences the queue entry unchecked, so a slot must be free. */
    method QueuePrepped(p: Ptr)
      requires p in heap && |staged| < DEPTH
      modifies this`staged
      ensures State() == Stage(old(State()), p)
    {
      staged := staged + {p};
    }

    /** io_uring_cqe_seen: with the entry it hands back, the ring holds at most DEPTH + 1 requests and completions. */
    method CqeSeen()
      requires unseen == 1 && |staged| + |flying| + unseen <= DEPTH + 1
      modifies this`unseen
      ensures unseen == 0
    {
      unseen := 0;
    }

    method QueueRead(size: nat, at: nat)
      returns (failed: bool, ghost granted: bool, ghost p: Ptr, ghost garbage: seq<Byte>)
      modifies this`heap, this`staged, this`mallocs
      ensures mallocs == old(mallocs) + [Alloc(granted, old(heap) == map[])]
      ensures failed <==> !granted || old(|staged|) >= DEPTH
      ensures failed ==> State() == old(State())
      ensures !failed ==> p !in old(heap) && |garbage| == size
      ensures !failed ==> State() == Stage(old(State()).(heap := old(heap)[p := NewRead(size, at, garbage)]), p)
    {
      p, garbage := 0, [];
      var block := Malloc();
      granted := block.Some?;
      if block.None? {
        return true, granted, p, garbage;
      }
      if |staged| >= DEPTH {
        return true, granted, p, garbage;
      }
      p := block.value;
      assert |seq(size, _ => 0 as Byte)| == size;
      var contents: seq<Byte> :| |contents| == size;
      garbage := contents;
      heap := heap[block.value := Request(true, at, at, size, 0, size, contents)];
      staged := staged + {block.value};
      failed := false;
    }

    method QueueWrite(p: Ptr)
      requires p in heap && |staged| < DEPTH
      modifies this`heap, this`staged, this`flying
      ensures State() == Submit(Stage(Rewind(old(State()), p), p))
    {
      heap := heap[p := heap[p].(read := false, offset := heap[p].firstOffset, base := 0, len := heap[p].firstLen)];
      QueuePrepped(p);
      SubmitQueued();
    }

    /** The kernel moves bytes between a file and the request's buffer. */
    method KernelMove(p: Ptr, res: nat)
      requires CanTransfer(State(), src, p, res)
      modifies this`heap, this`flying, this`dest, this`written
      ensures State() == Transfer(old(State()), src, p, res)
    {
      var r := heap[p];
      flying := flying - {p};
      if r.read {
        heap := heap[p := r.(buffer :=
          r.buffer[..r.base] + src[r.offset..r.offset + res] + r.buffer[r.base + res..])];
      } else {
        dest := WriteAt(dest, r.offset, r.buffer[r.base..r.base + res]);
        written := written + Range(r.offset, res);
      }
    }

    /** io_uring_wait_cqe: the kernel finishes some request it holds, or the wait itself fails. */
    method WaitCqe(ghost caller: Caller) returns (ret: int, p: Ptr, res: int)
      requires Requests(State(), src) && flying <= heap.Keys && flying != {} && unseen == 0
      modifies this`heap, this`flying, this`dest, this`written, this`agains, this`unseen, this`replies
      ensures ret <= 0 && unseen == if ret == 0 then 1 else 0
      ensures replies == old(replies) + [Reply(caller, ret, if ret == 0 then res else 0)]
      ensures ret < 0 ==> State() == old(State()) && agains == old(agains)
      ensures ret == 0 ==> p in old(flying)
      ensures ret == 0 && res <= 0 ==> res != 0 && State() == old(State()).(flying := old(flying) - {p})
      ensures ret == 0 && res < 0 ==> agains == old(agains) - if res == -EAGAIN then 1 else 0
      ensures ret == 0 && res > 0 ==> CanTransfer(old(State()), src, p, res)
      ensures ret == 0 && res > 0 ==> State() == Transfer(old(State()), src, p, res) && agains == old(agains)
    {
      ret, res := *, *;
      p :| p in flying;
      if ret != 0 {
        ret :| ret < 0;
        replies := replies + [Reply(caller, ret, 0)];
        return;
      }
      unseen := 1;
      var r := heap[p];
      assert GoodRequest(r, src, offset);
      if res == -EAGAIN && agains > 0 {
        flying, agains := flying - {p}, agains - 1;
      } else if res < 0 && res != -EAGAIN {
        flying := flying - {p};
      } else {
        res :| 0 < res <= r.len;
        KernelMove(p, res);
      }
      replies := replies + [Reply(caller, ret, res)];
    }

    /** The body of the fill loop after its window test, lines 105-120. */
    method FillOnce(ghost was: seq<Byte>) returns (failed: bool, ghost p: Ptr, ghost garbage: seq<Byte>)
      requires Valid(was) && insize > 0 && nReads + nWrites < DEPTH
      modifies this`insize, this`offset, this`nReads, this`heap, this`staged, this`mallocs
      ensures mallocs == old(mallocs) + [Alloc(!failed, old(heap) == map[])]
      ensures failed ==> State() == old(State())
      ensures !failed ==> Enabled(old(State()), src, DoFill(p, garbage))
      ensures !failed ==> State() == Fill(old(State()), p, garbage)
    {
      assert |staged| < DEPTH by { ReachableFitsRing(State(), src, was); }
      var thisSize := insize;
      if thisSize > BUF_SIZE {
        thisSize := BUF_SIZE;
      }
      ghost var granted;
      failed, granted, p, garbage := QueueRead(thisSize, offset);
      if !failed {
        insize := insize - thisSize;
        offset := offset + thisSize;
        nReads := nReads + 1;
      }
    }

    /** The fill loop, lines 104-121. It leaves no request live before the end of the file only if malloc refuses. */
    method FillWindow(ghost was: seq<Byte>)
      requires Valid(was) && staged == {} && !IdleRefusal(mallocs)
      modifies this`insize, this`offset, this`nReads, this`heap, this`staged, this`mallocs
      ensures Valid(was)
      ensures forall q :: q in staged ==> q in heap && heap[q].read
      ensures staged == {} <==> nReads == old(nReads)
      ensures Measure() == old(Measure())
      ensures |mallocs| >= |old(mallocs)|
      ensures insize > 0 && nReads + nWrites < DEPTH <==>
        |mallocs| > |old(mallocs)| && !mallocs[|mallocs| - 1].granted
      ensures IdleRefusal(mallocs) <==> insize > 0 && heap == map[]
    {
      while insize > 0
        invariant Valid(was)
        invariant forall q :: q in staged ==> q in heap && heap[q].read
        invariant nReads == old(nReads) + |staged|
        invariant Measure() == old(Measure())
        invariant !IdleRefusal(mallocs) && |mallocs| >= |old(mallocs)|
        invariant |mallocs| > |old(mallocs)| ==> mallocs[|mallocs| - 1].granted
      {
        assert heap == map[] ==> nReads + nWrites == 0 by { Waitable(State(), src, was); }
        if nReads + nWrites >= DEPTH {
          break;
        }
        ghost var s, log := State(), mallocs;
        var failed, p, garbage := FillOnce(was);
        OneMoreAlloc(log, Alloc(!failed, s.heap == map[]));
        if failed {
          break;
        }
        FillStep(s, src, was, p, garbage);
      }
    }

    /** What the completion loop does with a completion, lines 153-183. */
    method Handle(p: Ptr, res: int) returns (failed: bool)
      requires p in heap && |staged| < DEPTH && res != 0 && res <= heap[p].len
      modifies this`writeLeft, this`nReads, this`nWrites, this`heap, this`staged, this`flying
      ensures failed <==> res < 0 && res != -EAGAIN
      ensures failed ==> State() == old(State())
      ensures res == -EAGAIN ==> State() == Submit(Stage(old(State()), p))
      ensures res > 0 ==> State() == React(old(State()), p, res)
    {
      failed := false;
      if res < 0 {
        if res == -EAGAIN {
          QueuePrepped(p);
          SubmitQueued();
          return;
        }
        failed := true;
        return;
      } else if res != heap[p].len {
        heap := heap[p := heap[p].(base := heap[p].base + res, len := heap[p].len - res,
                                   offset := heap[p].offset + res)];
        QueuePrepped(p);
        SubmitQueued();
        return;
      }
      if heap[p].read {
        QueueWrite(p);
        writeLeft := writeLeft - heap[p].firstLen;
        nReads := nReads - 1;
        nWrites := nWrites + 1;
      } else {
        heap := heap - {p};
        nWrites := nWrites - 1;
      }
    }

    /** io_uring_peek_cqe: as a wait, but it may also find nothing. */
    method PeekCqe() returns (ret: int, p: Ptr, res: int)
      requires Requests(State(), src) && flying <= heap.Keys && unseen == 0
      modifies this`heap, this`flying, this`dest, this`written, this`agains, this`unseen, this`replies
      ensures ret <= 0 && unseen == if ret == 0 then 1 else 0
      ensures replies == old(replies) + [Reply(MainPeek, ret, if ret == 0 then res else 0)]
      ensures ret < 0 ==> State() == old(State()) && agains == old(agains)
      ensures ret == 0 ==> p in old(flying)
      ensures ret == 0 && res <= 0 ==> res != 0 && State() == old(State()).(flying := old(flying) - {p})
      ensures ret == 0 && res < 0 ==> agains == old(agains) - if res == -EAGAIN then 1 else 0
      ensures ret == 0 && res > 0 ==> CanTransfer(old(State()), src, p, res)
      ensures ret == 0 && res > 0 ==> State() == Transfer(old(State()), src, p, res) && agains == old(agains)
    {
      var ready: bool := *;
      if ready && flying != {} {
        ret, p, res := WaitCqe(MainPeek);
      } else {
        ret, p, res := -EAGAIN, 0, 0;
        replies := replies + [Reply(MainPeek, ret, 0)];
      }
    }

    /** Lines 153-183 for a completion that the kernel has just posted in state `s`. */
    method HandleCqe(p: Ptr, res: int, ghost s: State, ghost was: seq<Byte>) returns (failed: bool)
      requires Reachable(s, src, was) && s.staged == {} && p in s.flying && unseen == 1
      requires res <= 0 ==> res != 0 && State() == s.(flying := s.flying - {p})
      requires res > 0 ==> CanTransfer(s, src, p, res) && State() == Transfer(s, src, p, res)
      modifies this`writeLeft, this`nReads, this`nWrites, this`heap, this`staged, this`flying, this`unseen
      ensures failed <==> res < 0 && res != -EAGAIN
      ensures failed ==> Content(State(), src, was)
      ensures !failed ==> Valid(was) && staged == {}
      ensures !failed ==> Remaining(State()) == Remaining(s) - if res > 0 then res else 0
    {
      Waitable(s, src, was);
      failed := Handle(p, res);
      if !failed {
        HandledStep(s, src, was, p, res);
        CqeSeen();
      }
    }

    /** One pass of the completion loop; `first` is its blocking wait. */
    method ReapOne(first: bool, ghost was: seq<Byte>) returns (none: bool, failed: bool)
      requires Valid(was) && staged == {} && (first ==> flying != {}) && !SomeFatal(replies)
      modifies this`writeLeft, this`nReads, this`nWrites, this`heap, this`staged, this`flying,
               this`dest, this`written, this`agains, this`unseen, this`replies
      ensures failed <==> SomeFatal(replies)
      ensures none ==> !first && !failed && State() == old(State()) && agains == old(agains) && unseen == 0
      ensures !none && !failed ==> Valid(was) && staged == {} && Measure() < old(Measure())
      ensures failed ==> Content(State(), src, was)
    {
      none, failed := false, false;
      ghost var s, log := State(), replies;
      Waitable(s, src, was);
      var ret, p, res;
      if first {
        ret, p, res := WaitCqe(MainWait);
        OneMoreReply(log, Reply(MainWait, ret, if ret == 0 then res else 0));
      } else {
        ret, p, res := PeekCqe();
        OneMoreReply(log, Reply(MainPeek, ret, if ret == 0 then res else 0));
        if ret == -EAGAIN {
          return true, false;
        }
      }
      if ret < 0 {
        return false, true;
      }
      failed := HandleCqe(p, res, s, was);
    }

    /**
    The completion loop, lines 131-184. It hangs exactly if bytes remain and no block is live; unless it
    fails or hangs it handles at least one completion.
    */
    method ReapCompletions(ghost was: seq<Byte>) returns (end: Option<Outcome>)
      requires Valid(was) && staged == {} && !SomeFatal(replies)
      modifies this`writeLeft, this`nReads, this`nWrites, this`heap, this`staged, this`flying,
               this`dest, this`written, this`agains, this`unseen, this`replies
      ensures end == Some(Returned(1)) <==> SomeFatal(replies)
      ensures end == None ==> Valid(was) && staged == {}
      ensures end == None && old(writeLeft) > 0 ==> Measure() < old(Measure())
      ensures end == None && old(writeLeft) == 0 ==> State() == old(State()) && agains == old(agains)
      ensures end == None || end == Some(Returned(1)) || end == Some(Blocked)
      ensures end == Some(Blocked) <==> old(writeLeft) > 0 && old(heap) == map[]
      ensures end == Some(Blocked) ==> State() == old(State())
      ensures end.Some? ==> Content(State(), src, was)
    {
      var gotComp := false;
      Waitable(State(), src, was);
      while writeLeft != 0
        invariant Valid(was) && staged == {} && !SomeFatal(replies)
        invariant !gotComp ==> State() == old(State()) && agains == old(agains)
        invariant gotComp ==> Measure() < old(Measure()) && old(writeLeft) > 0 && old(heap) != map[]
        decreases Measure()
      {
        Waitable(State(), src, was);
        if !gotComp && flying == {} {
          return Some(Blocked);
        }
        var none, failed := ReapOne(!gotComp, was);
        if failed {
          return Some(Returned(1));
        }
        if none {
          break;
        }
        gotComp := true;
      }
      return None;
    }

    /** Lines 200-202. */
    method Release(p: Ptr)
      requires p in heap && unseen == 1 && |staged| + |flying| <= DEPTH
      modifies this`nWrites, this`heap, this`unseen
      ensures State() == Free(old(State()), p).(nWrites := old(nWrites) - 1) && unseen == 0
    {
      heap := heap - {p};
      nWrites := nWrites - 1;
      CqeSeen();
    }

    /** One pass of the drain loop, lines 189-203: whatever completes is freed and counted as a write. */
    method DrainOne() returns (failed: bool, ghost step: Drained)
      requires Requests(State(), src) && flying <= heap.Keys && flying != {} && unseen == 0
      requires |staged| + |flying| <= DEPTH && !SomeFatal(replies)
      modifies this`nWrites, this`heap, this`flying, this`dest, this`written, this`agains, this`unseen,
               this`replies, this`drained
      ensures failed <==> SomeFatal(replies)
      ensures failed ==> dest == old(dest) && written == old(written) && drained == old(drained)
      ensures !failed ==> CanTransfer(old(State()), src, step.p, step.res) && unseen == 0
      ensures !failed ==> State() == OnDrain(old(State()), src, step.p, step.res)
      ensures !failed ==> drained == old(drained) + [step]
    {
      step := Drained(0, 0);
      ghost var log := replies;
      var ret, data, moved := WaitCqe(DrainWait);
      OneMoreReply(log, Reply(DrainWait, ret, if ret == 0 then moved else 0));
      if ret != 0 {
        return true, step;
      }
      if moved < 0 {
        return true, step;
      }
      step := Drained(data, moved);
      drained := drained + [step];
      assert |flying| <= old(|flying|);
      Release(data);
      failed := false;
    }

    /** The drain loop, lines 188-204, on a state in which the main loop can be left. */
    method Drain(ghost was: seq<Byte>) returns (ret: int)
      requires LoopLeft(State(), src, was) && unseen == 0 && drained == [] && !SomeFatal(replies)
      modifies this`nWrites, this`heap, this`flying, this`dest, this`written, this`agains, this`unseen,
               this`replies, this`drained
      ensures ret == 0 || ret == 1
      ensures ret == 1 <==> SomeFatal(replies)
      ensures Content(State(), src, was)
      ensures ret == 0 ==> IsDrain(old(State()), src, drained)
      ensures ret == 0 ==> AfterDrain(old(State()), src, drained) == State() && nWrites == 0
    {
      ghost var left := State();
      LoopLeftDrains(left, src, was);
      while nWrites != 0
        invariant unseen == 0 && IsDrain(left, src, drained) && AfterDrain(left, src, drained) == State()
        invariant 0 <= nWrites && Content(State(), src, was) && !SomeFatal(replies)
        decreases nWrites
      {
        DrainKeepsInv(left, src, was, left.staged == {}, drained);
        assert |flying| > 0;
        ghost var d := drained;
        var failed, step := DrainOne();
        if failed {
          return 1;
        }
        DrainExtends(left, src, d, step.p, step.res);
        DrainKeepsInv(left, src, was, left.staged == {}, drained);
      }
      ret := 0;
    }

    /** Lines 103-129: fill the window and submit the new reads, if any. */
    method FillAndSubmit(ghost was: seq<Byte>) returns (submitted: bool)
      requires Valid(was) && staged == {} && !IdleRefusal(mallocs) && AllSucceeded(submits)
      modifies this`insize, this`offset, this`nReads, this`heap, this`staged, this`flying, this`mallocs, this`submits
      ensures submitted ==> Valid(was) && staged == {} && Measure() == old(Measure())
      ensures !submitted ==> LoopLeft(State(), src, was) && unseen == 0 && staged != {}
      ensures submitted <==> AllSucceeded(submits)
      ensures IdleRefusal(mallocs) <==> insize > 0 && heap == map[]
      ensures |mallocs| >= |old(mallocs)|
      ensures insize > 0 && nReads + nWrites < DEPTH <==>
        |mallocs| > |old(mallocs)| && !mallocs[|mallocs| - 1].granted
    {
      var hadReads := nReads;
      FillWindow(was);
      submitted := true;
      if hadReads != nReads {
        ghost var s, log := State(), submits;
        var ret := SubmitChecked();
        assert submits[|log|] == ret && forall i :: 0 <= i < |log| ==> submits[i] == log[i];
        if ret < 0 {
          submitted := false;
        } else {
          ReachableStep(s, src, was, DoSubmit);
        }
      }
    }

    /** One pass of the outer loop, lines 103-184. */
    method Round(ghost was: seq<Byte>) returns (submitted: bool, end: Option<Outcome>)
      requires Valid(was) && staged == {} && (insize != 0 || writeLeft != 0)
      requires !IdleRefusal(mallocs) && AllSucceeded(submits) && !SomeFatal(replies)
      modifies this`insize, this`offset, this`writeLeft, this`nReads, this`nWrites, this`heap, this`staged,
               this`flying, this`dest, this`written, this`agains, this`unseen, this`mallocs, this`submits, this`replies
      ensures end == None || end == Some(Returned(1)) || end == Some(Blocked)
      ensures submitted <==> AllSucceeded(submits)
      ensures !submitted ==> end == None && LoopLeft(State(), src, was) && unseen == 0 && staged != {}
      ensures submitted && end == None ==> Valid(was) && staged == {} && Measure() < old(Measure())
      ensures end == Some(Blocked) <==> IdleRefusal(mallocs)
      ensures end == Some(Returned(1)) <==> SomeFatal(replies)
      ensures end.Some? ==> Content(State(), src, was)
    {
      Leftover(State(), src, was);
      submitted := FillAndSubmit(was);
      if !submitted {
        return submitted, None;
      }
      Leftover(State(), src, was);
      end := ReapCompletions(was);
    }

    /** The outer loop, lines 99-185: `None` when control reaches the drain. */
    method MainLoop(ghost was: seq<Byte>) returns (end: Option<Outcome>)
      requires Valid(was) && staged == {} && mallocs == [] && replies == [] && submits == []
      modifies this`insize, this`offset, this`writeLeft, this`nReads, this`nWrites, this`heap, this`staged,
               this`flying, this`dest, this`written, this`agains, this`unseen, this`mallocs, this`submits, this`replies
      ensures end == None || end == Some(Returned(1)) || end == Some(Blocked)
      ensures end == None ==> LoopLeft(State(), src, was) && unseen == 0
      ensures end == None ==> (staged == {} <==> AllSucceeded(submits))
      ensures end == Some(Blocked) <==> IdleRefusal(mallocs)
      ensures end == Some(Returned(1)) <==> SomeFatal(replies)
      ensures end.Some? ==> Content(State(), src, was)
    {
      while insize != 0 || writeLeft != 0
        invariant Valid(was) && staged == {}
        invariant !IdleRefusal(mallocs) && AllSucceeded(submits) && !SomeFatal(replies)
        decreases Measure()
      {
        var submitted;
        submitted, end := Round(was);
        if !submitted || end.Some? {
          return;
        }
      }
      end := None;
    }

    /**
    copy_file. It always terminates or hangs, and `left` is the state in which it leaves its main loop. When
    it returns 0, the whole file has been written if and only if every checked submit had succeeded and every
    completion of the drain was full; then the destination is the source and every block has been freed.
    It returns 1 if and only if a wait, a peek or a completion failed for good, and hangs if and only if malloc
    refused a block while no request was live; so it returns 0 exactly if neither happened. However it ends,
    what has been written is the source's and nothing beyond the source's length has changed.
    */
    method Copy() returns (o: Outcome, ghost left: State)
      requires State() == Init(|src|, dest) && unseen == 0
      requires mallocs == [] && replies == [] && submits == [] && drained == []
      modifies this
      ensures o == Returned(0) || o == Returned(1) || o == Blocked
      ensures o == Returned(0) ==>
        LoopLeft(left, src, old(dest)) && IsDrain(left, src, drained) && AfterDrain(left, src, drained) == State()
      ensures o == Returned(0) ==>
        ((AllSucceeded(submits) && AllFull(left, src, drained)) <==> forall k :: 0 <= k < |src| ==> k in written)
      ensures o == Returned(0) && AllSucceeded(submits) && AllFull(left, src, drained) ==>
        dest == CopyResult(src, old(dest)) && heap == map[]
      ensures o == Returned(1) <==> SomeFatal(replies)
      ensures o == Blocked <==> IdleRefusal(mallocs)
      ensures Content(State(), src, old(dest))
    {
      ghost var was := dest;
      InitReachable(src, was);
      var end := MainLoop(was);
      left := State();
      if end.Some? {
        return end.value, left;
      }
      var ret := Drain(was);
      o := Returned(ret);
      if ret == 0 {
        DrainedIffFull(left, src, was, drained);
      }
    }
  }

  /** One handled completion is a step of the transition system and leaves less to do. */
  lemma HandledStep(s: State, src: seq<Byte>, was: seq<Byte>, p: Ptr, res: int)
    requires Reachable(s, src, was) && s.staged == {} && p in s.flying
    requires res > 0 ==> CanTransfer(s, src, p, res)
    requires res == -EAGAIN || res > 0
    ensures var t := if res > 0 then OnComplete(s, src, p, res) else OnAgain(s, p);
      && Reachable(t, src, was) && t.staged == {} && |t.flying| <= DEPTH
      && Remaining(t) == Remaining(s) - if res > 0 then res else 0
  {
    ReachableStep(s, src, was, if res > 0 then DoComplete(p, res) else DoAgain(p));
    ReachableFitsRing(if res > 0 then OnComplete(s, src, p, res) else OnAgain(s, p), src, was);
  }

  lemma FillStep(s: State, src: seq<Byte>, was: seq<Byte>, p: Ptr, garbage: seq<Byte>)
    requires Reachable(s, src, was) && Enabled(s, src, DoFill(p, garbage))
    requires forall q :: q in s.staged ==> q in s.heap && s.heap[q].read
    ensures var t := Fill(s, p, garbage);
      && Reachable(t, src, was) && Remaining(t) == Remaining(s)
      && |t.staged| == |s.staged| + 1 && t.insize < s.insize
      && forall q :: q in t.staged ==> q in t.heap && t.heap[q].read
  {
    ReachableInv(s, src, was);
    CountLive(s.heap);
    FillKeepsCounts(s, src, p, garbage);
    ReachableStep(s, src, was, DoFill(p, garbage));
  }

  /** What the loop conditions say about the bytes not yet queued. */
  lemma Leftover(s: State, src: seq<Byte>, was: seq<Byte>)
    requires Reachable(s, src, was)
    ensures 0 <= s.insize <= s.writeLeft
    ensures s.staged == {} && s.writeLeft > 0 && s.heap == map[] ==> s.insize == s.writeLeft
  {
    ReachableInv(s, src, was);
    if s.staged == {} && s.writeLeft > 0 { WaitIsAnswered(s, src, was); }
  }

  /** What the wait needs to know about the requests the kernel holds. */
  lemma Waitable(s: State, src: seq<Byte>, was: seq<Byte>)
    requires Reachable(s, src, was)
    ensures Requests(s, src) && Content(s, src, was) && s.flying <= s.heap.Keys && s.writeLeft >= 0
    ensures s.staged == {} && s.writeLeft > 0 ==> (s.flying == {} <==> s.heap == map[])
    ensures s.heap == map[] ==> s.nReads + s.nWrites == 0
  {
    ReachableInv(s, src, was);
    CountLive(s.heap);
    if s.staged == {} && s.writeLeft > 0 { WaitIsAnswered(s, src, was); }
  }
}
