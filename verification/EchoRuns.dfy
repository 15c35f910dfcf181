/** What holds over every run of the echo server. */
module EchoRuns {
  import opened Common
  import opened EchoModel
  import opened EchoSafety

  lemma StepKeepsInv(s: State, x: Action)
    requires Inv(s) && Enabled(s, x)
    ensures Inv(Apply(s, x))
  {
    match x
    case DoSubmit => SubmitKeepsInv(s);
    case DoComplete(p, res, data) => CompleteKeepsInv(s, p, res, data);
    case DoProcess(p, a, b) => ProcessKeepsInv(s, p, a, b);
  }

  lemma {:induction false} RunKeepsInv(s: State, run: seq<Action>)
    requires Inv(s) && IsRun(s, run)
    ensures Inv(Last(s, run))
    decreases |run|
  {
    if run != [] {
      StepKeepsInv(s, run[0]);
      RunKeepsInv(Apply(s, run[0]), run[1..]);
    }
  }

  /** The states of a server that was started on `listener`. */
  ghost predicate Reachable(s: State, listener: int) {
    exists first: Ptr, run ::
      first != NULL && IsRun(Init(listener, first), run) && Last(Init(listener, first), run) == s
  }

  lemma ReachableInv(s: State, listener: int)
    requires Reachable(s, listener)
    ensures Inv(s)
  {
    var first: Ptr, run :|
      first != NULL && IsRun(Init(listener, first), run) && Last(Init(listener, first), run) == s;
    InitInv(listener, first);
    RunKeepsInv(Init(listener, first), run);
  }

  lemma {:induction false} RunExtends(s: State, run: seq<Action>, x: Action)
    requires IsRun(s, run) && Enabled(Last(s, run), x)
    ensures IsRun(s, run + [x]) && Last(s, run + [x]) == Apply(Last(s, run), x)
    decreases |run|
  {
    if run == [] {
      assert run + [x] == [x] && [x][1..] == [];
      assert IsRun(Apply(s, x), []);
    } else {
      RunExtends(Apply(s, run[0]), run[1..], x);
      assert (run + [x])[1..] == run[1..] + [x];
    }
  }

  lemma ReachableStep(s: State, listener: int, x: Action)
    requires Reachable(s, listener) && Enabled(s, x)
    ensures Reachable(Apply(s, x), listener)
  {
    var first: Ptr, run :|
      first != NULL && IsRun(Init(listener, first), run) && Last(Init(listener, first), run) == s;
    RunExtends(Init(listener, first), run, x);
  }

  // ---------------------------------------------------------------- ownership

  /** No use after free, no double free, no leak: a block is live exactly while one request carries it. */
  lemma OneCarrierPerBlock(s: State, listener: int, p: Ptr)
    requires Reachable(s, listener) && p != NULL
    ensures s.staged[p] + s.flying[p] + One(p in s.ready) == One(p in s.heap)
  {
    ReachableInv(s, listener);
    assert Carriers(s, p) == One(p in s.heap);
  }

  /** Live connections have distinct open descriptors, and nothing else but the listener stays open. */
  lemma DescriptorsAreOwned(s: State, listener: int, p: Ptr, q: Ptr, fd: int)
    requires Reachable(s, listener)
    ensures IsConn(s, p) && IsConn(s, q) && p != q ==> s.heap[p].connfd != s.heap[q].connfd
    ensures IsConn(s, p) ==> s.heap[p].connfd in s.open
    ensures fd in s.open && fd != s.listener ==> HasHolder(s, fd)
  {
    ReachableInv(s, listener);
    if IsConn(s, p) { assert Holds(s, p, s.heap[p].connfd); }
    if IsConn(s, q) { assert Holds(s, q, s.heap[q].connfd); }
  }

  /** A close is of an open descriptor that no other block holds, and leaves it closed. */
  lemma CloseIsFinal(s: State, listener: int, p: Ptr, a: Ptr, b: Ptr)
    requires Reachable(s, listener) && CanProcess(s, p, a, b) && IsConn(s, p) && s.ready[p] <= 0
    ensures var fd := s.heap[p].connfd; var t := Process(s, p, a, b);
      && fd in s.open && fd !in t.open && p !in t.heap
      && (forall q :: q != p ==> !Holds(s, q, fd)) && !HasHolder(t, fd)
  {
    ReachableInv(s, listener);
    var fd := s.heap[p].connfd;
    assert Holds(s, p, fd);
    ProcessKeepsInv(s, p, a, b);
  }

  // ---------------------------------------------------------------- service

  /**
  A transfer of at least one byte keeps the connection: its block rides on the next request, which is a send
  of exactly the bytes received after a receive, and a receive after a send.
  */
  lemma TransferGoesOn(s: State, listener: int, p: Ptr, a: Ptr, b: Ptr)
    requires Reachable(s, listener) && CanProcess(s, p, a, b) && IsConn(s, p) && s.ready[p] > 0
    ensures var t := Process(s, p, a, b); var i := s.heap[p];
      && p in t.heap && t.staged == s.staged + multiset{p} && t.staged[p] == 1 && p !in t.ready
      && t.open == s.open && t.flying == s.flying && t.received == s.received && t.sent == s.sent
      && t.heap[p].connfd == i.connfd && t.heap[p].conn == i.conn && t.heap[p].buffer == i.buffer
      && (i.event == EventRead ==> t.heap[p].event == EventWrite && t.heap[p].bufferLength == s.ready[p])
      && (i.event == EventWrite ==> t.heap[p].event == EventRead && t.heap[p].bufferLength == i.bufferLength)
  {
    ReachableInv(s, listener);
    assert Carriers(s, p) == 1;
  }

  /** A successful accept gives the new descriptor a block that receives up to 4096 bytes, and accepts again. */
  lemma AcceptGoesOn(s: State, listener: int, p: Ptr, a: Ptr, b: Ptr)
    requires Reachable(s, listener) && CanProcess(s, p, a, b) && IsAccept(s, p) && s.ready[p] >= 0
    ensures var t := Process(s, p, a, b);
      && p !in t.heap && a in t.heap && b in t.heap && t.staged == s.staged + multiset{a, b}
      && t.open == s.open && s.ready[p] in t.open && t.accepted == s.accepted + 1
      && t.heap[a].connfd == s.ready[p] && t.heap[a].event == EventRead && t.heap[a].bufferLength == 4096
      && t.heap[a].conn == s.accepted && t.received == s.received + [[]] && t.sent == s.sent + [[]]
      && t.heap[b].connfd == s.listener && t.heap[b].event == EventAccept
  {
    ReachableInv(s, listener);
    assert Holds(s, p, s.ready[p]);
  }

  /** What a completed transfer adds to the connection's history, and where the bytes received lie. */
  lemma TransferIsRecorded(s: State, listener: int, p: Ptr, res: int, data: seq<Byte>)
    requires Reachable(s, listener) && CanComplete(s, p, res, data) && IsConn(s, p)
    ensures var t := Complete(s, p, res, data); var c := s.heap[p].conn;
      && p in t.ready && t.ready[p] == res && p in t.heap && t.flying == s.flying - multiset{p}
      && c < |s.received| == |t.received| && c < |s.sent| == |t.sent|
      && (if s.heap[p].event == EventRead && res > 0
          then |data| == res <= |t.heap[p].buffer| && t.heap[p].buffer[..res] == data &&
               t.received[c] == s.received[c] + [data]
          else t.heap[p] == s.heap[p] && t.received[c] == s.received[c])
      && (if s.heap[p].event == EventWrite && res > 0
          then res <= |s.heap[p].buffer| && t.sent[c] == s.sent[c] + [s.heap[p].buffer[..res]]
          else t.sent[c] == s.sent[c])
  {
    ReachableInv(s, listener);
    assert Stream(s, p);
  }

  /** Processing this completion ends the connection of block `q`. */
  ghost predicate Closes(s: State, x: Action, q: Ptr) {
    x.DoProcess? && x.p == q && IsConn(s, q) && q in s.ready && s.ready[q] <= 0
  }

  /** A descriptor is closed exactly when a completion of its own block reported the end or an error. */
  lemma ClosedIffEnded(s: State, listener: int, x: Action, fd: int)
    requires Reachable(s, listener) && Enabled(s, x) && fd in s.open
    ensures fd !in Apply(s, x).open <==> exists q :: Closes(s, x, q) && s.heap[q].connfd == fd
  {
    ReachableInv(s, listener);
    if x.DoProcess? && Closes(s, x, x.p) { assert Holds(s, x.p, s.heap[x.p].connfd); }
  }

  /** A descriptor is opened exactly by a completed accept. */
  lemma OpenedIffAccepted(s: State, listener: int, x: Action, fd: int)
    requires Reachable(s, listener) && Enabled(s, x) && fd !in s.open
    ensures fd in Apply(s, x).open <==> x.DoComplete? && IsAccept(s, x.p) && x.res == fd && fd >= 0
  {
    ReachableInv(s, listener);
  }

  ghost predicate SomeClose(s: State, run: seq<Action>, q: Ptr)
    requires IsRun(s, run)
    decreases |run|
  {
    run != [] && (Closes(s, run[0], q) || SomeClose(Apply(s, run[0]), run[1..], q))
  }

  ghost predicate Serves(s: State, q: Ptr, c: nat, fd: int) {
    IsConn(s, q) && s.heap[q].conn == c && s.heap[q].connfd == fd && fd in s.open
  }

  /** Some block belongs to connection `c`. */
  ghost predicate Alive(s: State, c: nat) { exists p :: IsConn(s, p) && s.heap[p].conn == c }

  lemma ServesProcess(s: State, p: Ptr, a: Ptr, b: Ptr, q: Ptr, c: nat, fd: int)
    requires Descriptors(s) && NULL !in s.heap && CanProcess(s, p, a, b)
    requires Serves(s, q, c, fd) && !Closes(s, DoProcess(p, a, b), q)
    ensures Serves(Process(s, p, a, b), q, c, fd)
  {
    assert Holds(s, q, fd);
    if IsConn(s, p) { assert Holds(s, p, s.heap[p].connfd); }
  }

  lemma ServesStep(s: State, x: Action, q: Ptr, c: nat, fd: int)
    requires Inv(s) && Enabled(s, x) && Serves(s, q, c, fd) && !Closes(s, x, q)
    ensures Serves(Apply(s, x), q, c, fd)
  {
    if x.DoProcess? { ServesProcess(s, x.p, x.a, x.b, q, c, fd); }
  }

  lemma ClosesStep(s: State, x: Action, q: Ptr)
    requires Inv(s) && Enabled(s, x) && Closes(s, x, q)
    ensures s.heap[q].conn < Apply(s, x).accepted && !Alive(Apply(s, x), s.heap[q].conn)
  {
    assert Stream(s, q);
    var t := Apply(s, x);
    forall p | IsConn(t, p) ensures t.heap[p].conn != s.heap[q].conn { assert IsConn(s, p); }
  }

  lemma EndedForGood(s: State, run: seq<Action>, c: nat)
    requires Inv(s) && IsRun(s, run) && c < s.accepted && !Alive(s, c)
    ensures !Alive(Last(s, run), c)
  {
    forall p | IsConn(Last(s, run), p) ensures Last(s, run).heap[p].conn != c {
      if Last(s, run).heap[p].conn == c { LengthNeverGrows(s, run, p); }
    }
  }

  /**
  The server serves a connection on its block and descriptor for as long as the client does: over any run
  the connection is alive at the end if and only if no transfer of it reported the end or an error.
  */
  lemma {:induction false} ServedUntilEnded(s: State, run: seq<Action>, q: Ptr, c: nat, fd: int)
    requires Inv(s) && IsRun(s, run) && Serves(s, q, c, fd)
    ensures !SomeClose(s, run, q) ==> Serves(Last(s, run), q, c, fd)
    ensures !SomeClose(s, run, q) <==> Alive(Last(s, run), c)
    decreases |run|
  {
    if run != [] {
      StepKeepsInv(s, run[0]);
      if Closes(s, run[0], q) {
        ClosesStep(s, run[0], q);
        EndedForGood(Apply(s, run[0]), run[1..], c);
      } else {
        ServesStep(s, run[0], q, c, fd);
        ServedUntilEnded(Apply(s, run[0]), run[1..], q, c, fd);
      }
    }
  }

  // ---------------------------------------------------------------- isolation

  /** What belongs to the connection of block `q`: the block, its descriptor and its history. */
  ghost predicate Untouched(s: State, t: State, q: Ptr)
    requires q in s.heap
  {
    var c := s.heap[q].conn;
    && q in t.heap && t.heap[q] == s.heap[q] && s.heap[q].connfd in t.open
    && c < |s.sent| && c < |t.sent| && c < |s.received| && c < |t.received|
    && t.sent[c] == s.sent[c] && t.received[c] == s.received[c]
  }

  lemma CompleteIsIsolated(s: State, p: Ptr, res: int, data: seq<Byte>, q: Ptr)
    requires Streams(s) && CanComplete(s, p, res, data) && IsConn(s, q) && p != q
    requires s.heap[q].connfd in s.open && NULL !in s.heap
    ensures Untouched(s, Complete(s, p, res, data), q)
  {}

  lemma ProcessIsIsolated(s: State, p: Ptr, a: Ptr, b: Ptr, q: Ptr)
    requires Streams(s) && Descriptors(s) && CanProcess(s, p, a, b) && IsConn(s, q) && p != q && NULL !in s.heap
    ensures Untouched(s, Process(s, p, a, b), q)
  {
    assert Stream(s, q) && Holds(s, q, s.heap[q].connfd);
    if IsConn(s, p) { assert Holds(s, p, s.heap[p].connfd); }
  }

  /** A step for one block leaves every other block, and every other connection's history, as it was. */
  lemma StepIsIsolated(s: State, listener: int, x: Action, q: Ptr)
    requires Reachable(s, listener) && Enabled(s, x) && IsConn(s, q)
    requires x.DoSubmit? || x.p != q
    ensures Untouched(s, Apply(s, x), q)
  {
    ReachableInv(s, listener);
    assert Stream(s, q) && Holds(s, q, s.heap[q].connfd);
    match x
    case DoSubmit =>
    case DoComplete(p, res, data) => CompleteIsIsolated(s, p, res, data, q);
    case DoProcess(p, a, b) => ProcessIsIsolated(s, p, a, b, q);
  }

  // ---------------------------------------------------------------- the echoed stream

  function Flatten(chunks: seq<seq<Byte>>): seq<Byte> {
    if chunks == [] then [] else Flatten(chunks[..|chunks| - 1]) + chunks[|chunks| - 1]
  }

  ghost predicate AllFull(sent: seq<seq<Byte>>, received: seq<seq<Byte>>)
    requires |sent| <= |received|
  {
    forall j :: 0 <= j < |sent| ==> |sent[j]| == |received[j]|
  }

  /** Pieces that are prefixes add up to the whole exactly when none of them is short. */
  lemma {:induction false} FlattenPrefixes(sent: seq<seq<Byte>>, received: seq<seq<Byte>>)
    requires |sent| == |received| && forall j :: 0 <= j < |sent| ==> sent[j] <= received[j]
    ensures |Flatten(sent)| <= |Flatten(received)|
    ensures Flatten(sent) == Flatten(received) <==> AllFull(sent, received)
    ensures |Flatten(sent)| == |Flatten(received)| <==> AllFull(sent, received)
    decreases |sent|
  {
    if sent != [] {
      var n := |sent| - 1;
      FlattenPrefixes(sent[..n], received[..n]);
      assert AllFull(sent, received) <==> AllFull(sent[..n], received[..n]) && |sent[n]| == |received[n]|;
      if AllFull(sent, received) { assert sent[n] == received[n]; }
    }
  }

  /** The bytes a live connection has in its buffer and still has to send. */
  ghost function Pending(s: State, p: Ptr): seq<Byte>
    requires IsConn(s, p) && Stream(s, p)
  {
    var i := s.heap[p];
    var got := p in s.ready && s.ready[p] > 0;
    if i.event == EventRead && got then i.buffer[..s.ready[p]]
    else if i.event == EventWrite && !got then i.buffer[..i.bufferLength]
    else []
  }

  lemma EchoOfConn(s: State, p: Ptr)
    requires Streams(s) && IsConn(s, p)
    ensures Stream(s, p) && Prefixes(s.sent[s.heap[p].conn], s.received[s.heap[p].conn])
    ensures var sent := s.sent[s.heap[p].conn]; var received := s.received[s.heap[p].conn];
      Flatten(sent) + Pending(s, p) == Flatten(received) <==> AllFull(sent, received)
  {
    var sent, received := s.sent[s.heap[p].conn], s.received[s.heap[p].conn];
    assert Stream(s, p) && Prefixes(sent, received);
    var n := |sent|;
    var whole := received[..n];
    FlattenPrefixes(sent, whole);
    assert AllFull(sent, whole) <==> AllFull(sent, received);
    if |received| == n {
      assert whole == received && Pending(s, p) == [];
      assert Flatten(sent) + [] == Flatten(sent);
    } else {
      assert received[..|received| - 1] == whole;
      assert Flatten(received) == Flatten(whole) + Pending(s, p);
      if Flatten(sent) + Pending(s, p) == Flatten(received) {
        assert |Flatten(sent)| == |Flatten(whole)|;
      }
    }
  }

  /**
  In every run, what a live connection has sent followed by what its buffer holds is what it received
  if and only if none of its sends was short.
  */
  lemma EchoIffFull(s: State, listener: int, p: Ptr)
    requires Reachable(s, listener) && IsConn(s, p)
    ensures Stream(s, p) && Prefixes(s.sent[s.heap[p].conn], s.received[s.heap[p].conn])
    ensures var sent := s.sent[s.heap[p].conn]; var received := s.received[s.heap[p].conn];
      Flatten(sent) + Pending(s, p) == Flatten(received) <==> AllFull(sent, received)
  {
    ReachableInv(s, listener);
    EchoOfConn(s, p);
  }

  /** For every connection ever set up, also after it was closed, the pieces sent are prefixes in order. */
  lemma SentPiecesArePrefixes(s: State, listener: int, c: nat, j: nat)
    requires Reachable(s, listener) && c < s.accepted
    ensures |s.sent| == |s.received| == s.accepted && |s.sent[c]| <= |s.received[c]| <= |s.sent[c]| + 1
    ensures j < |s.sent[c]| ==> s.sent[c][j] <= s.received[c][j] && s.sent[c][j] != []
  {
    ReachableInv(s, listener);
    assert Prefixes(s.sent[c], s.received[c]);
  }

  // ---------------------------------------------------------------- receive lengths

  lemma ProcessShrinks(s: State, p: Ptr, a: Ptr, b: Ptr, q: Ptr)
    requires Streams(s) && NULL !in s.heap && CanProcess(s, p, a, b)
    requires IsConn(Process(s, p, a, b), q) && Process(s, p, a, b).heap[q].conn < s.accepted
    ensures var t := Process(s, p, a, b);
      && IsConn(s, q) && s.heap[q].conn == t.heap[q].conn && t.heap[q].bufferLength <= s.heap[q].bufferLength
  {}

  lemma StepShrinks(s: State, x: Action, q: Ptr)
    requires Streams(s) && NULL !in s.heap && Enabled(s, x)
    requires IsConn(Apply(s, x), q) && Apply(s, x).heap[q].conn < s.accepted
    ensures var t := Apply(s, x);
      && IsConn(s, q) && s.heap[q].conn == t.heap[q].conn && t.heap[q].bufferLength <= s.heap[q].bufferLength
  {
    if x.DoProcess? { ProcessShrinks(s, x.p, x.a, x.b, q); }
  }

  /** During its life a connection keeps its block, and its receive length never grows. */
  lemma {:induction false} LengthNeverGrows(s: State, run: seq<Action>, q: Ptr)
    requires Inv(s) && IsRun(s, run) && IsConn(Last(s, run), q) && Last(s, run).heap[q].conn < s.accepted
    ensures IsConn(s, q) && s.heap[q].conn == Last(s, run).heap[q].conn
    ensures 1 <= Last(s, run).heap[q].bufferLength <= s.heap[q].bufferLength <= MAXLINE
    decreases |run|
  {
    if run == [] {
      assert Stream(s, q);
    } else {
      var t := Apply(s, run[0]);
      StepKeepsInv(s, run[0]);
      assert s.accepted <= t.accepted;
      LengthNeverGrows(t, run[1..], q);
      StepShrinks(s, run[0], q);
      assert Stream(s, q);
    }
  }

  // ---------------------------------------------------------------- the accept

  ghost predicate Accepting(s: State) { exists p :: IsAccept(s, p) }

  ghost predicate FailsAccept(s: State, x: Action)
    requires Enabled(s, x)
  {
    x.DoProcess? && x.p != NULL && s.heap[x.p].event == EventAccept && s.ready[x.p] < 0
  }

  ghost predicate SomeAcceptFails(s: State, run: seq<Action>)
    requires IsRun(s, run)
    decreases |run|
  {
    run != [] && (FailsAccept(s, run[0]) || SomeAcceptFails(Apply(s, run[0]), run[1..]))
  }

  ghost predicate IsAccept(s: State, p: Ptr) { p in s.heap && s.heap[p].event == EventAccept }

  lemma ProcessAccepts(s: State, p: Ptr, a: Ptr, b: Ptr)
    requires Listening(s) && NULL !in s.heap && CanProcess(s, p, a, b)
    ensures Accepting(Process(s, p, a, b)) <==> Accepting(s) && !FailsAccept(s, DoProcess(p, a, b))
  {
    var t := Process(s, p, a, b);
    if IsAccept(s, p) {
      assert forall q :: IsAccept(t, q) <==> q == b && s.ready[p] >= 0;
      assert s.ready[p] >= 0 ==> IsAccept(t, b);
    } else {
      assert forall q :: IsAccept(t, q) <==> IsAccept(s, q);
    }
  }

  lemma StepAccepts(s: State, x: Action)
    requires Inv(s) && Enabled(s, x)
    ensures Accepting(Apply(s, x)) <==> Accepting(s) && !FailsAccept(s, x)
  {
    if x.DoProcess? {
      ProcessAccepts(s, x.p, x.a, x.b);
    } else {
      assert forall q :: IsAccept(Apply(s, x), q) <==> IsAccept(s, q);
    }
  }

  /** The server goes on accepting exactly until an accept fails: it never arms another one. */
  lemma {:induction false} AcceptsUntilFailure(s: State, run: seq<Action>)
    requires Inv(s) && IsRun(s, run) && Accepting(s)
    ensures Accepting(Last(s, run)) <==> !SomeAcceptFails(s, run)
    decreases |run|
  {
    if run != [] {
      StepKeepsInv(s, run[0]);
      StepAccepts(s, run[0]);
      if FailsAccept(s, run[0]) {
        NeverAcceptsAgain(Apply(s, run[0]), run[1..]);
      } else {
        AcceptsUntilFailure(Apply(s, run[0]), run[1..]);
      }
    }
  }

  lemma {:induction false} NeverAcceptsAgain(s: State, run: seq<Action>)
    requires Inv(s) && IsRun(s, run) && !Accepting(s)
    ensures !Accepting(Last(s, run))
    decreases |run|
  {
    if run != [] {
      StepKeepsInv(s, run[0]);
      StepAccepts(s, run[0]);
      NeverAcceptsAgain(Apply(s, run[0]), run[1..]);
    }
  }

  // ---------------------------------------------------------------- queue space

  /** The accept request is with the kernel or completed, so it may still queue two entries. */
  ghost predicate AcceptOut(s: State) {
    exists p :: IsAccept(s, p) && p !in s.staged
  }

  ghost function Load(s: State): nat { |s.staged| + One(AcceptOut(s)) }

  lemma ProcessLoads(s: State, p: Ptr, a: Ptr, b: Ptr)
    requires Ownership(s) && Listening(s) && CanProcess(s, p, a, b)
    ensures Load(Process(s, p, a, b)) <= Load(s) + 1
  {}

  // ---------------------------------------------------------------- a short send

  /** The history of every connection is only ever extended. */
  ghost predicate Extended(s: State, t: State) {
    && |s.sent| <= |t.sent| && |s.received| <= |t.received|
    && (forall c :: 0 <= c < |s.sent| ==> s.sent[c] <= t.sent[c])
    && (forall c :: 0 <= c < |s.received| ==> s.received[c] <= t.received[c])
  }

  lemma {:induction false} HistoriesGrow(s: State, run: seq<Action>)
    requires IsRun(s, run)
    ensures Extended(s, Last(s, run))
    decreases |run|
  {
    if run != [] {
      assert Extended(s, Apply(s, run[0]));
      HistoriesGrow(Apply(s, run[0]), run[1..]);
    }
  }

  /**
  Connection `c` has sent fewer bytes than came in the chunks it answered; and if it lives, what it sent and
  what its buffer holds are not what it received.
  */
  ghost predicate FallsShort(s: State, c: nat) {
    && c < |s.sent| && c < |s.received| && |s.sent[c]| <= |s.received[c]|
    && |Flatten(s.sent[c])| < |Flatten(s.received[c][..|s.sent[c]|])|
    && forall p :: IsConn(s, p) && s.heap[p].conn == c ==>
         Stream(s, p) && Flatten(s.sent[c]) + Pending(s, p) != Flatten(s.received[c])
  }

  /** A loss is for good: it shows in every later state, also after the connection was closed. */
  lemma LossIsForGood(s: State, run: seq<Action>, c: nat)
    requires Inv(s) && IsRun(s, run) && c < s.accepted && Prefixes(s.sent[c], s.received[c])
    requires !AllFull(s.sent[c], s.received[c])
    ensures FallsShort(Last(s, run), c)
  {
    var t := Last(s, run);
    RunKeepsInv(s, run);
    HistoriesGrow(s, run);
    assert s.sent[c] <= t.sent[c] && s.received[c] <= t.received[c];
    assert Prefixes(t.sent[c], t.received[c]);
    var j :| 0 <= j < |s.sent[c]| && |s.sent[c][j]| != |s.received[c][j]|;
    var whole := t.received[c][..|t.sent[c]|];
    assert t.sent[c][j] == s.sent[c][j] && whole[j] == t.received[c][j] == s.received[c][j];
    FlattenPrefixes(t.sent[c], whole);
    forall p | IsConn(t, p) && t.heap[p].conn == c
      ensures Stream(t, p) && Flatten(t.sent[c]) + Pending(t, p) != Flatten(t.received[c])
    {
      EchoOfConn(t, p);
    }
  }

  /** Any send of more than one byte may complete short, and then what it leaves behind is never sent. */
  lemma ShortSendLoses(s: State, listener: int, p: Ptr, res: int, run: seq<Action>)
    requires Reachable(s, listener) && IsConn(s, p) && s.heap[p].event == EventWrite && p in s.flying
    requires 0 < res < s.heap[p].bufferLength
    ensures CanComplete(s, p, res, [])
    ensures IsRun(Complete(s, p, res, []), run) ==>
      FallsShort(Last(Complete(s, p, res, []), run), s.heap[p].conn)
  {
    ReachableInv(s, listener);
    var c := s.heap[p].conn;
    assert Stream(s, p) && Carriers(s, p) == 1;
    var t := Complete(s, p, res, []);
    CompleteKeepsInv(s, p, res, []);
    assert Prefixes(t.sent[c], t.received[c]);
    var j := |s.sent[c]|;
    assert |t.sent[c][j]| == res && |t.received[c][j]| == s.heap[p].bufferLength;
    if IsRun(t, run) { LossIsForGood(t, run, c); }
  }

  /** A server on descriptor 3 with one client on descriptor 4. */
  function OneClient(info: ConnInfo, received: seq<seq<Byte>>): State {
    State(map[2 := info, 5 := AcceptInfo(3)], multiset{}, multiset{NULL, 2, 5}, map[], {3, 4}, 3, 1, [received], [[]])
  }

  lemma ServerStarts()
    ensures Reachable(State(map[1 := AcceptInfo(3)], multiset{}, multiset{NULL, 1}, map[], {3}, 3, 0, [], []), 3)
  {
    var s := Init(3, 1);
    assert IsRun(s, []) && Last(s, []) == s;
    ReachableStep(s, 3, DoSubmit);
  }

  lemma ClientArrives()
    ensures Reachable(State(map[1 := AcceptInfo(3)], multiset{}, multiset{NULL}, map[1 := 4], {3, 4}, 3, 0, [], []), 3)
  {
    ServerStarts();
    var s := State(map[1 := AcceptInfo(3)], multiset{}, multiset{NULL, 1}, map[], {3}, 3, 0, [], []);
    ReachableStep(s, 3, DoComplete(1, 4, []));
    assert Complete(s, 1, 4, []) == s.(flying := multiset{NULL}, ready := map[1 := 4], open := {3, 4});
  }

  lemma ClientIsRead()
    ensures Reachable(OneClient(NewConn(4, 0), []).(staged := multiset{2, 5}, flying := multiset{NULL}), 3)
  {
    ClientArrives();
    var s := State(map[1 := AcceptInfo(3)], multiset{}, multiset{NULL}, map[1 := 4], {3, 4}, 3, 0, [], []);
    ReachableStep(s, 3, DoProcess(1, 2, 5));
    var t := OneClient(NewConn(4, 0), []).(staged := multiset{2, 5}, flying := multiset{NULL});
    assert Process(s, 1, 2, 5).heap == t.heap;
    assert Process(s, 1, 2, 5) == t;
  }

  lemma ClientWaits()
    ensures Reachable(OneClient(NewConn(4, 0), []), 3)
  {
    ClientIsRead();
    var s := OneClient(NewConn(4, 0), []).(staged := multiset{2, 5}, flying := multiset{NULL});
    ReachableStep(s, 3, DoSubmit);
    assert Submit(s) == OneClient(NewConn(4, 0), []);
  }

  /** What the kernel does when the client's two bytes arrive. */
  lemma BytesArrive()
    ensures var s := OneClient(NewConn(4, 0), []);
      var info := NewConn(4, 0).(buffer := [1, 2] + Zeroes(MAXLINE)[2..]);
      && CanComplete(s, 2, 2, [1, 2])
      && Complete(s, 2, 2, [1, 2]) == OneClient(info, [[1, 2]]).(flying := multiset{NULL, 5}, ready := map[2 := 2])
  {
    var s := OneClient(NewConn(4, 0), []);
    var info := NewConn(4, 0).(buffer := [1, 2] + Zeroes(MAXLINE)[2..]);
    var t := OneClient(info, [[1, 2]]);
    assert s.received[0] + [[1, 2]] == [[1, 2]];
    assert Complete(s, 2, 2, [1, 2]).received == t.received;
    assert Complete(s, 2, 2, [1, 2]).heap == t.heap;
  }

  lemma ClientSends()
    ensures var info := NewConn(4, 0).(buffer := [1, 2] + Zeroes(MAXLINE)[2..]);
      Reachable(OneClient(info, [[1, 2]]).(flying := multiset{NULL, 5}, ready := map[2 := 2]), 3)
  {
    ClientWaits();
    BytesArrive();
    ReachableStep(OneClient(NewConn(4, 0), []), 3, DoComplete(2, 2, [1, 2]));
  }

  lemma ServerAnswers()
    ensures Reachable(OneClient(ConnInfo(4, EventWrite, [1, 2] + Zeroes(MAXLINE)[2..], 2, 0), [[1, 2]]), 3)
  {
    ClientSends();
    var info := NewConn(4, 0).(buffer := [1, 2] + Zeroes(MAXLINE)[2..]);
    var s := OneClient(info, [[1, 2]]).(flying := multiset{NULL, 5}, ready := map[2 := 2]);
    ReachableStep(s, 3, DoProcess(2, 0, 0));
    var t := Process(s, 2, 0, 0);
    ReachableStep(t, 3, DoSubmit);
    var u := OneClient(ConnInfo(4, EventWrite, [1, 2] + Zeroes(MAXLINE)[2..], 2, 0), [[1, 2]]);
    assert Submit(t).heap == u.heap;
    assert Submit(t) == u;
  }

  /** A client sends two bytes and the answer goes out short: the second byte is not echoed. */
  lemma ShortSendExample()
    ensures var s := OneClient(ConnInfo(4, EventWrite, [1, 2] + Zeroes(MAXLINE)[2..], 2, 0), [[1, 2]]);
      && Reachable(s, 3) && CanComplete(s, 2, 1, [])
      && Complete(s, 2, 1, []).sent == [[[1]]] && Complete(s, 2, 1, []).received == [[[1, 2]]]
  {
    ServerAnswers();
    var s := OneClient(ConnInfo(4, EventWrite, [1, 2] + Zeroes(MAXLINE)[2..], 2, 0), [[1, 2]]);
    assert s.heap[2].buffer[..1] == [1];
    assert s.sent[0] + [[1]] == [[1]];
    assert Complete(s, 2, 1, []).sent[0] == [[1]];
  }
}
