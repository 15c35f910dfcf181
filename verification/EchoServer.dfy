/** The event loop of io_uring/socket_uring_server.c, lines 159-221, over the heap of ConnInfo blocks. */
module EchoServer {
  import opened Common
  import opened EchoModel
  import opened EchoSafety
  import opened EchoRuns

  const CQE_LEN: nat := 10
  const RING_LEN: nat := 1024

  class Server {
    const listener: int
    var heap: map<Ptr, ConnInfo>
    var staged: multiset<Ptr>
    var flying: multiset<Ptr>
    var ready: map<Ptr, int>
    var open: set<int>
    var accepted: nat
    var received: seq<seq<seq<Byte>>>
    var sent: seq<seq<seq<Byte>>>

    function State(): State
      reads this
    {
      EchoModel.State.State(heap, staged, flying, ready, open, listener, accepted, received, sent)
    }

    /** The state is one that a server started on `listener` can reach. */
    ghost predicate Valid()
      reads this
    {
      Reachable(State(), listener)
    }

    constructor (listener: int, first: Ptr)
      requires first != NULL
      ensures this.listener == listener && State() == Init(listener, first) && Valid()
    {
      this.listener := listener;
      heap := map[first := ConnInfo(listener, EventAccept, Zeroes(MAXLINE), 0, 0)];
      staged, flying, ready := multiset{NULL, first}, multiset{}, map[];
      open, accepted := {listener}, 0;
      received, sent := [], [];
      new;
      assert IsRun(Init(listener, first), []) && Last(Init(listener, first), []) == State();
    }

    /** malloc succeeds; the program does not survive its failure. */
    method Malloc() returns (p: Ptr)
      ensures p != NULL && p !in heap
    {
      Unused(heap.Keys + {NULL});
      p :| p !in heap.Keys + {NULL};
    }

    method SubmitAll()
      requires Valid()
      modifies this`staged, this`flying
      ensures Valid() && State() == Submit(old(State()))
    {
      ghost var s := State();
      flying, staged := flying + staged, multiset{};
      ReachableStep(s, listener, DoSubmit);
    }

    method SetAcceptEvent(sfd: int) returns (info: Ptr)
      requires |staged| < RING_LEN
      modifies this`heap, this`staged
      ensures info != NULL && info !in old(heap)
      ensures State() == Arm(old(State()), info, AcceptInfo(sfd))
    {
      info := Malloc();
      heap := heap[info := ConnInfo(sfd, EventAccept, Zeroes(MAXLINE), 0, 0)];
      staged := staged + multiset{info};
    }

    method SetRecvEvent(sfd: int, info: Ptr)
      requires info in heap && |staged| < RING_LEN
      modifies this`heap, this`staged
      ensures State() == Arm(old(State()), info, old(heap[info]).(connfd := sfd, event := EventRead))
    {
      heap := heap[info := heap[info].(connfd := sfd, event := EventRead)];
      staged := staged + multiset{info};
    }

    method SetSendEvent(sfd: int, info: Ptr)
      requires info in heap && |staged| < RING_LEN
      modifies this`heap, this`staged
      ensures State() == Arm(old(State()), info, old(heap[info]).(connfd := sfd, event := EventWrite))
    {
      heap := heap[info := heap[info].(connfd := sfd, event := EventWrite)];
      staged := staged + multiset{info};
    }

    /** close: only an open descriptor may be closed. */
    method Close(fd: int)
      requires fd in open
      modifies this`open
      ensures open == old(open) - {fd}
    {
      open := open - {fd};
    }

    /** free: only a live block may be freed. */
    method Free(p: Ptr)
      requires p in heap
      modifies this`heap
      ensures heap == old(heap) - {p}
    {
      heap := heap - {p};
    }

    /** Lines 185-194, for a successful accept that carries block `ci`. */
    method OnAccept(ci: Ptr, connfd: int) returns (ghost a: Ptr, ghost b: Ptr)
      requires ci in heap && |staged| + 1 < RING_LEN
      modifies this`heap, this`staged, this`accepted, this`received, this`sent
      ensures a != NULL && b != NULL && a != b && a !in old(heap) && b !in old(heap)
      ensures
        State() == (var u := Arm(old(State()), a, NewConn(connfd, old(accepted)));
                    var v := Arm(u, b, AcceptInfo(old(heap[ci].connfd)));
                    v.(heap := v.heap - {ci}, accepted := old(accepted) + 1,
                       received := old(received) + [[]], sent := old(sent) + [[]]))
    {
      ghost var s := State();
      var newInfo := Malloc();
      var fd := heap[ci].connfd;
      heap := heap[newInfo := ConnInfo(0, EventAccept, Zeroes(MAXLINE), MAXLINE, accepted)];
      SetRecvEvent(connfd, newInfo);
      assert State() == Arm(s, newInfo, NewConn(connfd, accepted));
      var acceptInfo := SetAcceptEvent(fd);
      Free(ci);
      accepted := accepted + 1;
      received, sent := received + [[]], sent + [[]];
      a, b := newInfo, acceptInfo;
    }

    /** Lines 195-217, for a finished receive or send. */
    method OnTransfer(ci: Ptr, res: int)
      requires ci in heap && heap[ci].event != EventAccept && heap[ci].connfd in open && |staged| < RING_LEN
      modifies this`heap, this`staged, this`open
      ensures var s := old(State()); var i := s.heap[ci];
        State() == if res <= 0 then Drop(s, ci)
                   else if i.event == EventRead then Arm(s, ci, i.(bufferLength := res, event := EventWrite))
                   else Arm(s, ci, i.(event := EventRead))
    {
      if heap[ci].event == EventRead {
        if res == 0 {
          Close(heap[ci].connfd);
          Free(ci);
        } else if res < 0 {
          Close(heap[ci].connfd);
          Free(ci);
        } else {
          heap := heap[ci := heap[ci].(bufferLength := res)];
          SetSendEvent(heap[ci].connfd, ci);
        }
      } else {
        if res <= 0 {
          Close(heap[ci].connfd);
          Free(ci);
          return;
        }
        SetRecvEvent(heap[ci].connfd, ci);
      }
    }

    /** Lines 173-218, for one completion of the batch. */
    method HandleCqe(ci: Ptr) returns (ghost a: Ptr, ghost b: Ptr)
      requires Valid() && ci in ready && |staged| + 1 < RING_LEN
      modifies this`heap, this`staged, this`open, this`ready, this`accepted, this`received, this`sent
      ensures CanProcess(old(State()), ci, a, b) && State() == Process(old(State()), ci, a, b)
      ensures Valid() && ready == old(ready) - {ci} && Load(State()) <= old(Load(State())) + 1
    {
      ghost var s := State();
      Processable(s, listener, ci);
      var res := ready[ci];
      ready := ready - {ci};
      a, b := NULL, NULL;
      if ci == NULL {
      } else if heap[ci].event == EventAccept {
        if res < 0 {
          Free(ci);
        } else {
          a, b := OnAccept(ci, res);
        }
      } else {
        OnTransfer(ci, res);
      }
      assert State() == Process(s, ci, a, b);
      Processed(s, listener, ci, a, b);
    }

    /** The for loop over one batch: a queue emptied by the submit has room for everything it arms. */
    method ServeBatch(cqes: seq<Ptr>) returns (ghost steps: seq<Action>)
      requires Valid() && staged == multiset{} && IsBatch(cqes, ready)
      modifies this`heap, this`staged, this`open, this`ready, this`accepted, this`received, this`sent
      ensures Valid() && |staged| <= |cqes| + 1 <= CQE_LEN + 1
      ensures forall i :: 0 <= i < |cqes| ==> cqes[i] !in ready
      ensures Processes(old(State()), steps, cqes, State())
    {
      ghost var s := State();
      steps := [];
      assert Processes(s, steps, [], s);
      var i := 0;
      while i < |cqes|
        invariant 0 <= i <= |cqes| && Valid() && Load(State()) <= i + 1 && Remain(cqes, i, ready)
        invariant Processes(s, steps, cqes[..i], State())
      {
        ghost var t := State();
        var a, b := HandleCqe(cqes[i]);
        OneMoreProcess(s, steps, cqes, i, t, a, b);
        OneLessRemains(cqes, i, t.ready);
        steps := steps + [DoProcess(cqes[i], a, b)];
        i := i + 1;
      }
      assert cqes[..i] == cqes;
    }

    /** The kernel completes any requests it holds, in any order, with any result it may report. */
    method RunKernel() returns (ghost steps: seq<Action>)
      requires Valid()
      modifies this`heap, this`flying, this`ready, this`open, this`received, this`sent
      ensures Valid()
      ensures Completes(old(State()), steps, State())
    {
      ghost var s := State();
      steps := [];
      assert Completes(s, steps, s);
      var n: int := *;
      while n > 0
        invariant Valid() && Completes(s, steps, State())
      {
        var p: Ptr, res: int, data: seq<Byte> := *, *, *;
        if p in flying && (p == NULL || p in heap) {
          ghost var t := State();
          KernelComplete(p, res, data);
          if CanComplete(t, p, res, data) {
            OneMoreCompletion(s, steps, t, DoComplete(p, res, data));
            steps := steps + [DoComplete(p, res, data)];
          }
        }
        n := n - 1;
      }
    }

    /** One completion, if the kernel may report it. */
    method KernelComplete(p: Ptr, res: int, data: seq<Byte>)
      requires Valid() && p in flying && (p == NULL || p in heap)
      modifies this`heap, this`flying, this`ready, this`open, this`received, this`sent
      ensures Valid()
      ensures if CanComplete(old(State()), p, res, data)
              then State() == Complete(old(State()), p, res, data) else State() == old(State())
    {
      var s := State();
      Completable(s, listener, p);
      if !CanComplete(s, p, res, data) {
        return;
      }
      var t := Complete(s, p, res, data);
      heap, flying, ready, open := t.heap, t.flying, t.ready, t.open;
      received, sent := t.received, t.sent;
      ReachableStep(s, listener, DoComplete(p, res, data));
    }

    /** io_uring_peek_batch_cqe: the completions that are there, up to CQE_LEN of them. */
    method PeekBatch() returns (cqes: seq<Ptr>)
      ensures IsBatch(cqes, ready) && |cqes| == if |ready| < 10 then |ready| else 10
    {
      cqes := [];
      var left := ready.Keys;
      while |cqes| < CQE_LEN && left != {}
        invariant IsBatch(cqes, ready) && left <= ready.Keys && |cqes| + |left| == |ready|
        invariant forall i :: 0 <= i < |cqes| ==> cqes[i] !in left
        decreases left
      {
        var p :| p in left;
        cqes, left := cqes + [p], left - {p};
      }
    }

    /** One round of the endless loop: submit, wait, and serve a batch of what has completed. */
    method Round()
      requires Valid() && |staged| <= CQE_LEN + 1
      modifies this
      ensures Valid() && |staged| <= CQE_LEN + 1 < RING_LEN
      ensures IsRound(old(State()), State())
    {
      ghost var s := State();
      SubmitAll();
      var kernel := RunKernel();
      ghost var m := State();
      var cqes := PeekBatch();
      var steps := ServeBatch(cqes);
      assert RoundBy(s, kernel, m, cqes, steps, State());
    }

    /** Any number of rounds, with the states between them: each starts with room and serves its batch. */
    method Serve(rounds: nat) returns (ghost trace: seq<State>)
      requires Valid() && |staged| <= CQE_LEN + 1
      modifies this
      ensures Valid() && |staged| <= CQE_LEN + 1 < RING_LEN
      ensures |trace| == rounds + 1 && AreRounds(trace) && trace[0] == old(State()) && trace[rounds] == State()
    {
      trace := [State()];
      for r := 0 to rounds
        invariant Valid() && |staged| <= CQE_LEN + 1
        invariant |trace| == r + 1 && AreRounds(trace) && trace[0] == old(State()) && trace[r] == State()
      {
        Round();
        OneMoreRound(trace, State());
        trace := trace + [State()];
      }
    }
  }

  /** Completions and nothing else lead from `s` to `t`. */
  ghost predicate Completes(s: State, steps: seq<Action>, t: State) {
    && (forall i :: 0 <= i < |steps| ==> steps[i].DoComplete?)
    && IsRun(s, steps) && Last(s, steps) == t
  }

  lemma OneMoreCompletion(s: State, steps: seq<Action>, t: State, x: Action)
    requires Completes(s, steps, t) && x.DoComplete? && Enabled(t, x)
    ensures Completes(s, steps + [x], Apply(t, x))
  {
    RunExtends(s, steps, x);
  }

  /** One step of the server for each completion of the batch, in order, leads from `s` to `t`. */
  ghost predicate Processes(s: State, steps: seq<Action>, cqes: seq<Ptr>, t: State) {
    && |steps| == |cqes|
    && (forall i :: 0 <= i < |steps| ==> steps[i].DoProcess? && steps[i].p == cqes[i])
    && IsRun(s, steps) && Last(s, steps) == t
  }

  /** The completions from `i` on are still there, the others are not. */
  ghost predicate Remain(cqes: seq<Ptr>, i: nat, ready: map<Ptr, int>) {
    && (forall j :: 0 <= j < |cqes| ==> (cqes[j] in ready <==> i <= j))
    && (forall j, k :: 0 <= j < k < |cqes| ==> cqes[j] != cqes[k])
  }

  lemma OneLessRemains(cqes: seq<Ptr>, i: nat, ready: map<Ptr, int>)
    requires Remain(cqes, i, ready) && i < |cqes|
    ensures Remain(cqes, i + 1, ready - {cqes[i]})
  {}

  lemma OneMoreProcess(s: State, steps: seq<Action>, cqes: seq<Ptr>, i: nat, t: State, a: Ptr, b: Ptr)
    requires i < |cqes| && Processes(s, steps, cqes[..i], t) && CanProcess(t, cqes[i], a, b)
    ensures Processes(s, steps + [DoProcess(cqes[i], a, b)], cqes[..i + 1], Process(t, cqes[i], a, b))
  {
    RunExtends(s, steps, DoProcess(cqes[i], a, b));
  }

  /**
  A round from `s` to `t`: everything staged is submitted, the kernel takes its steps, and then the completions
  that are there, up to ten of them, are processed.
  */
  ghost predicate RoundBy(s: State, kernel: seq<Action>, m: State, cqes: seq<Ptr>, steps: seq<Action>, t: State) {
    && Completes(Submit(s), kernel, m)
    && IsBatch(cqes, m.ready) && |cqes| == (if |m.ready| < 10 then |m.ready| else 10)
    && Processes(m, steps, cqes, t)
  }

  ghost predicate IsRound(s: State, t: State) {
    exists kernel, m, cqes, steps :: RoundBy(s, kernel, m, cqes, steps, t)
  }

  ghost predicate AreRounds(trace: seq<State>) {
    forall i :: 0 <= i < |trace| - 1 ==> IsRound(trace[i], trace[i + 1])
  }

  lemma OneMoreRound(trace: seq<State>, t: State)
    requires |trace| > 0 && AreRounds(trace) && IsRound(trace[|trace| - 1], t)
    ensures AreRounds(trace + [t])
  {
    var more := trace + [t];
    forall i | 0 <= i < |more| - 1 ensures IsRound(more[i], more[i + 1]) {
      if i < |trace| - 1 { assert IsRound(trace[i], trace[i + 1]); }
    }
  }

  predicate IsBatch(cqes: seq<Ptr>, ready: map<Ptr, int>) {
    && |cqes| <= CQE_LEN
    && (forall i :: 0 <= i < |cqes| ==> cqes[i] in ready)
    && (forall i, j :: 0 <= i < j < |cqes| ==> cqes[i] != cqes[j])
  }

  /** There is always an address that is not in use. */
  lemma {:induction false} Bound(used: set<Ptr>) returns (top: nat)
    ensures forall p :: p in used ==> p < top
    decreases |used|
  {
    top := 0;
    if used != {} {
      var q :| q in used;
      var rest := Bound(used - {q});
      top := if q < rest then rest else q + 1;
      assert forall p :: p in used ==> p == q || p in used - {q};
    }
  }

  lemma Unused(used: set<Ptr>)
    ensures exists p: Ptr :: p !in used
  {
    var top := Bound(used);
    assert top !in used;
  }

  lemma Completable(s: State, listener: int, p: Ptr)
    requires Reachable(s, listener)
    ensures NULL !in s.heap
    ensures IsConn(s, p) ==> s.heap[p].conn < |s.received| == |s.sent| && s.heap[p].bufferLength <= |s.heap[p].buffer|
  {
    ReachableInv(s, listener);
    if IsConn(s, p) { assert Stream(s, p); }
  }

  lemma Processable(s: State, listener: int, p: Ptr)
    requires Reachable(s, listener) && p in s.ready
    ensures p != NULL ==> p in s.heap
    ensures IsConn(s, p) ==> s.heap[p].connfd in s.open && s.ready[p] <= |s.heap[p].buffer|
  {
    ReachableInv(s, listener);
    if p != NULL { assert Carriers(s, p) >= 1; }
    if IsConn(s, p) { assert Stream(s, p) && Holds(s, p, s.heap[p].connfd); }
  }

  lemma Processed(s: State, listener: int, p: Ptr, a: Ptr, b: Ptr)
    requires Reachable(s, listener) && CanProcess(s, p, a, b)
    ensures Reachable(Process(s, p, a, b), listener)
    ensures Load(Process(s, p, a, b)) <= Load(s) + 1
  {
    ReachableInv(s, listener);
    ProcessLoads(s, p, a, b);
    ReachableStep(s, listener, DoProcess(p, a, b));
  }
}
