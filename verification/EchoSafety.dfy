/** Ownership, descriptors and echoed streams are kept by every step of the server and the kernel. */
module EchoSafety {
  import opened Common
  import opened EchoModel

  lemma InitInv(listener: int, p: Ptr)
    requires p != NULL
    ensures Inv(Init(listener, p))
  {}

  /** A step that neither opens nor closes anything and keeps every holder. */
  lemma SameHolders(s: State, t: State)
    requires Descriptors(s) && t.open == s.open && t.listener == s.listener
    requires forall p, fd :: Holds(t, p, fd) <==> Holds(s, p, fd)
    ensures Descriptors(t)
  {}

  lemma SubmitKeepsInv(s: State)
    requires Inv(s)
    ensures Inv(Submit(s))
  {
    var t := Submit(s);
    forall p | p != NULL ensures Carriers(t, p) == One(p in t.heap) {
      assert Carriers(s, p) == One(p in s.heap);
    }
    assert Carriers(t, NULL) == Carriers(s, NULL);
    forall p, fd ensures Holds(t, p, fd) <==> Holds(s, p, fd) {}
    SameHolders(s, t);
    forall p | IsConn(t, p) ensures IsConn(s, p) && Stream(t, p) {
      assert IsConn(s, p) && Stream(s, p);
    }
  }

  lemma CompleteOwns(s: State, p: Ptr, res: int, data: seq<Byte>)
    requires Ownership(s) && CanComplete(s, p, res, data)
    ensures p !in s.ready && Ownership(Complete(s, p, res, data))
  {
    var t := Complete(s, p, res, data);
    assert Carriers(s, p) >= s.flying[p] + One(p in s.ready);
    assert t.heap.Keys == s.heap.Keys;
    forall q ensures Carriers(t, q) == Carriers(s, q) {}
  }

  lemma CompleteDescriptors(s: State, p: Ptr, res: int, data: seq<Byte>)
    requires Listening(s) && Descriptors(s) && CanComplete(s, p, res, data) && p !in s.ready && NULL !in s.heap
    ensures Listening(Complete(s, p, res, data)) && Descriptors(Complete(s, p, res, data))
  {
    var t := Complete(s, p, res, data);
    if p != NULL && s.heap[p].event == EventAccept && res >= 0 {
      forall q, fd ensures Holds(t, q, fd) <==> Holds(s, q, fd) || (q == p && fd == res) {}
      forall fd | fd in t.open && fd != t.listener ensures HasHolder(t, fd) {
        if fd == res {
          assert Holds(t, p, fd);
        } else {
          assert HasHolder(s, fd);
          var q :| Holds(s, q, fd);
          assert Holds(t, q, fd);
        }
      }
    } else {
      forall q, fd ensures Holds(t, q, fd) <==> Holds(s, q, fd) {}
      SameHolders(s, t);
    }
  }

  lemma CompletePrefixes(s: State, p: Ptr, res: int, data: seq<Byte>, c: nat)
    requires Streams(s) && CanComplete(s, p, res, data) && p !in s.ready && NULL !in s.heap && c < s.accepted
    ensures var t := Complete(s, p, res, data);
      |t.received| == |t.sent| == t.accepted == s.accepted && Prefixes(t.sent[c], t.received[c])
  {
    assert Prefixes(s.sent[c], s.received[c]);
    if IsConn(s, p) { assert Stream(s, p); }
  }

  lemma CompleteStream(s: State, p: Ptr, res: int, data: seq<Byte>, q: Ptr)
    requires Streams(s) && CanComplete(s, p, res, data) && p !in s.ready && NULL !in s.heap
    requires IsConn(Complete(s, p, res, data), q)
    ensures IsConn(s, q) && Complete(s, p, res, data).heap[q].conn == s.heap[q].conn
    ensures Stream(Complete(s, p, res, data), q)
  {
    assert IsConn(s, q) && Stream(s, q);
    if IsConn(s, p) { assert Stream(s, p); }
  }

  lemma CompleteStreams(s: State, p: Ptr, res: int, data: seq<Byte>)
    requires Streams(s) && CanComplete(s, p, res, data) && p !in s.ready && NULL !in s.heap
    ensures Streams(Complete(s, p, res, data))
  {
    var t := Complete(s, p, res, data);
    forall q | IsConn(t, q) ensures IsConn(s, q) && t.heap[q].conn == s.heap[q].conn && Stream(t, q) {
      CompleteStream(s, p, res, data, q);
    }
    forall c | 0 <= c < t.accepted ensures Prefixes(t.sent[c], t.received[c]) {
      CompletePrefixes(s, p, res, data, c);
    }
  }

  lemma CompleteKeepsInv(s: State, p: Ptr, res: int, data: seq<Byte>)
    requires Inv(s) && CanComplete(s, p, res, data)
    ensures Inv(Complete(s, p, res, data))
  {
    CompleteOwns(s, p, res, data);
    CompleteDescriptors(s, p, res, data);
    CompleteStreams(s, p, res, data);
  }

  lemma ProcessOwns(s: State, p: Ptr, a: Ptr, b: Ptr)
    requires Ownership(s) && CanProcess(s, p, a, b)
    ensures Ownership(Process(s, p, a, b))
  {
    var t := Process(s, p, a, b);
    assert Carriers(t, NULL) <= Carriers(s, NULL);
    forall q | q != NULL ensures Carriers(t, q) == One(q in t.heap) {
      assert Carriers(s, q) == One(q in s.heap);
    }
  }

  lemma ProcessListening(s: State, p: Ptr, a: Ptr, b: Ptr)
    requires Listening(s) && Descriptors(s) && CanProcess(s, p, a, b) && NULL !in s.heap
    ensures Listening(Process(s, p, a, b))
  {
    if p != NULL && s.heap[p].event != EventAccept { assert Holds(s, p, s.heap[p].connfd); }
  }

  /** The new descriptor passes from the accept's result to the new block. */
  lemma AcceptedDescriptors(s: State, p: Ptr, a: Ptr, b: Ptr)
    requires Listening(s) && Descriptors(s) && CanProcess(s, p, a, b) && p != NULL
    requires s.heap[p].event == EventAccept && s.ready[p] >= 0 && b !in s.ready
    ensures Descriptors(Process(s, p, a, b))
  {
    var t := Process(s, p, a, b);
    var fd := s.ready[p];
    assert Holds(s, p, fd);
    forall q, x ensures Holds(t, q, x) <==> (Holds(s, q, x) && q != p) || (q == a && x == fd) {}
    forall x | x in t.open && x != t.listener ensures HasHolder(t, x) {
      assert HasHolder(s, x);
      var q :| Holds(s, q, x);
      assert Holds(t, if q == p then a else q, x);
    }
  }

  /** Closing frees the one block that holds the descriptor. */
  lemma DropDescriptors(s: State, p: Ptr, a: Ptr, b: Ptr)
    requires Descriptors(s) && CanProcess(s, p, a, b) && IsConn(s, p) && p != NULL && s.ready[p] <= 0
    ensures Descriptors(Process(s, p, a, b))
  {
    var t := Process(s, p, a, b);
    assert Holds(s, p, s.heap[p].connfd);
    forall q, x ensures Holds(t, q, x) <==> Holds(s, q, x) && q != p {}
    forall x | x in t.open && x != t.listener ensures HasHolder(t, x) {
      assert HasHolder(s, x);
      var q :| Holds(s, q, x);
      assert Holds(t, q, x);
    }
  }

  lemma ProcessDescriptors(s: State, p: Ptr, a: Ptr, b: Ptr)
    requires Ownership(s) && Listening(s) && Descriptors(s) && CanProcess(s, p, a, b)
    ensures Descriptors(Process(s, p, a, b))
  {
    if p != NULL && s.heap[p].event == EventAccept && s.ready[p] >= 0 {
      assert Carriers(s, b) == 0;
      AcceptedDescriptors(s, p, a, b);
    } else if p != NULL && s.heap[p].event != EventAccept && s.ready[p] <= 0 {
      DropDescriptors(s, p, a, b);
    } else {
      var t := Process(s, p, a, b);
      forall q, x ensures Holds(t, q, x) <==> Holds(s, q, x) {}
      SameHolders(s, t);
    }
  }

  lemma AcceptedStreams(s: State, p: Ptr, a: Ptr, b: Ptr)
    requires Streams(s) && CanProcess(s, p, a, b) && p != NULL && a !in s.ready
    requires s.heap[p].event == EventAccept && s.ready[p] >= 0
    ensures Streams(Process(s, p, a, b))
  {
    var t := Process(s, p, a, b);
    forall q ensures IsConn(t, q) <==> IsConn(s, q) || q == a {}
    forall q | IsConn(t, q) ensures Stream(t, q) {
      if q != a { assert IsConn(s, q) && Stream(s, q); }
    }
  }

  lemma OtherStreams(s: State, p: Ptr, a: Ptr, b: Ptr)
    requires Streams(s) && CanProcess(s, p, a, b) && NULL !in s.heap
    requires p == NULL || s.heap[p].event != EventAccept || s.ready[p] < 0
    ensures Streams(Process(s, p, a, b))
  {
    var t := Process(s, p, a, b);
    forall q | IsConn(t, q) ensures IsConn(s, q) && t.heap[q].conn == s.heap[q].conn && Stream(t, q) {
      assert IsConn(s, q) && Stream(s, q);
    }
  }

  lemma ProcessKeepsInv(s: State, p: Ptr, a: Ptr, b: Ptr)
    requires Inv(s) && CanProcess(s, p, a, b)
    ensures Inv(Process(s, p, a, b))
  {
    ProcessOwns(s, p, a, b);
    ProcessListening(s, p, a, b);
    ProcessDescriptors(s, p, a, b);
    if p != NULL && s.heap[p].event == EventAccept && s.ready[p] >= 0 {
      assert Carriers(s, a) == 0;
      AcceptedStreams(s, p, a, b);
    } else {
      OtherStreams(s, p, a, b);
    }
  }
}
