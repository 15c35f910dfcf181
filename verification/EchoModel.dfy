/**
The completion-driven echo server of io_uring/socket_uring_server.c as a transition system: the heap of
ConnInfo blocks, the ring that carries a pointer to one of them in every request, the open descriptors,
and the history of each connection.
*/
module EchoModel {
  import opened Common

  const MAXLINE: nat := 4096
  const NULL: Ptr := 0

  datatype Event = EventAccept | EventRead | EventWrite

  /** struct ConnInfo; `conn` numbers the connections in the order they are set up. */
  datatype ConnInfo = ConnInfo(connfd: int, event: Event, buffer: seq<Byte>, bufferLength: nat, conn: nat)

  /**
  A request carries its ConnInfo pointer through `staged` (prepared), `flying` (with the kernel) and
  `ready` (completed with a result, not yet processed). `received` and `sent` hold, for each connection,
  the chunks that came in and the pieces that went out.
  */
  datatype State = State(
    heap: map<Ptr, ConnInfo>, staged: multiset<Ptr>, flying: multiset<Ptr>, ready: map<Ptr, int>,
    open: set<int>, listener: int, accepted: nat,
    received: seq<seq<seq<Byte>>>, sent: seq<seq<seq<Byte>>>)

  function AcceptInfo(listener: int): ConnInfo { ConnInfo(listener, EventAccept, Zeroes(MAXLINE), 0, 0) }

  /** After set-up: the stray empty request of line 156 and the first accept are staged. */
  function Init(listener: int, p: Ptr): State
    requires p != NULL
  {
    State(map[p := AcceptInfo(listener)], multiset{NULL, p}, multiset{}, map[], {listener}, listener, 0, [], [])
  }

  function Submit(s: State): State {
    s.(flying := s.flying + s.staged, staged := multiset{})
  }

  // ---------------------------------------------------------------- the kernel

  /** What the kernel may report: accept returns an unused descriptor, transfers fit the request. */
  predicate CanComplete(s: State, p: Ptr, res: int, data: seq<Byte>) {
    && p in s.flying && (p != NULL ==> p in s.heap)
    && (p != NULL ==>
          var i := s.heap[p];
          match i.event
          case EventAccept => res < 0 || res !in s.open
          case EventRead => res <= i.bufferLength && (res > 0 ==> |data| == res && res <= |i.buffer|)
                            && i.conn < |s.received|
          case EventWrite => res <= i.bufferLength <= |i.buffer| && i.conn < |s.sent|)
  }

  function Complete(s: State, p: Ptr, res: int, data: seq<Byte>): State
    requires CanComplete(s, p, res, data)
  {
    var t := s.(flying := s.flying - multiset{p}, ready := s.ready[p := res]);
    if p == NULL || res < 0 then t
    else
      var i := s.heap[p];
      match i.event
      case EventAccept => t.(open := s.open + {res})
      case EventRead =>
        if res == 0 then t
        else t.(heap := s.heap[p := i.(buffer := data + i.buffer[res..])],
                received := s.received[i.conn := s.received[i.conn] + [data]])
      case EventWrite =>
        if res == 0 then t
        else t.(sent := s.sent[i.conn := s.sent[i.conn] + [i.buffer[..res]]])
  }

  // ---------------------------------------------------------------- the server

  /** close and free. */
  function Drop(s: State, p: Ptr): State
    requires p in s.heap
  {
    s.(open := s.open - {s.heap[p].connfd}, heap := s.heap - {p})
  }

  /** set_recv_event and set_send_event: the block is tagged and rides on a new request. */
  function Arm(s: State, p: Ptr, info: ConnInfo): State {
    s.(heap := s.heap[p := info], staged := s.staged + multiset{p})
  }

  /** A block for a new connection. */
  function NewConn(fd: int, conn: nat): ConnInfo { ConnInfo(fd, EventRead, Zeroes(MAXLINE), MAXLINE, conn) }

  ghost predicate CanProcess(s: State, p: Ptr, a: Ptr, b: Ptr) {
    && p in s.ready && (p != NULL ==> p in s.heap)
    && (p != NULL && s.heap[p].event == EventAccept && s.ready[p] >= 0 ==>
          a != NULL && b != NULL && a != b && a !in s.heap && b !in s.heap)
    && (p != NULL && s.heap[p].event == EventRead ==> s.ready[p] <= |s.heap[p].buffer|)
  }

  /** The body of the for loop for one completion; `a` and `b` are the blocks its mallocs return. */
  function Process(s: State, p: Ptr, a: Ptr, b: Ptr): State
    requires p in s.ready && (p != NULL ==> p in s.heap)
  {
    var res := s.ready[p];
    var t := s.(ready := s.ready - {p});
    if p == NULL then t
    else
      var i := s.heap[p];
      match i.event
      case EventAccept =>
        if res < 0 then t.(heap := t.heap - {p})
        else
          var u := Arm(t, a, NewConn(res, s.accepted));
          var v := Arm(u, b, AcceptInfo(i.connfd));
          v.(heap := v.heap - {p}, accepted := s.accepted + 1,
             received := s.received + [[]], sent := s.sent + [[]])
      case EventRead =>
        if res <= 0 then Drop(t, p) else Arm(t, p, i.(bufferLength := res, event := EventWrite))
      case EventWrite =>
        if res <= 0 then Drop(t, p) else Arm(t, p, i.(event := EventRead))
  }

  // ---------------------------------------------------------------- runs

  datatype Action = DoSubmit | DoComplete(p: Ptr, res: int, data: seq<Byte>) | DoProcess(p: Ptr, a: Ptr, b: Ptr)

  ghost predicate Enabled(s: State, x: Action) {
    match x
    case DoSubmit => true
    case DoComplete(p, res, data) => CanComplete(s, p, res, data)
    case DoProcess(p, a, b) => CanProcess(s, p, a, b)
  }

  ghost function Apply(s: State, x: Action): State
    requires Enabled(s, x)
  {
    match x
    case DoSubmit => Submit(s)
    case DoComplete(p, res, data) => Complete(s, p, res, data)
    case DoProcess(p, a, b) => Process(s, p, a, b)
  }

  ghost predicate IsRun(s: State, run: seq<Action>)
    decreases |run|
  {
    run == [] || (Enabled(s, run[0]) && IsRun(Apply(s, run[0]), run[1..]))
  }

  ghost function Last(s: State, run: seq<Action>): State
    requires IsRun(s, run)
    decreases |run|
  {
    if run == [] then s else Last(Apply(s, run[0]), run[1..])
  }

  // ---------------------------------------------------------------- invariant

  function One(b: bool): nat { if b then 1 else 0 }

  /** How many requests carry `p`. */
  function Carriers(s: State, p: Ptr): nat { s.staged[p] + s.flying[p] + One(p in s.ready) }

  /** Every live block rides on exactly one request and no request carries a freed block. */
  ghost predicate Ownership(s: State) {
    && NULL !in s.heap && Carriers(s, NULL) <= 1
    && forall p :: p != NULL ==> Carriers(s, p) == One(p in s.heap)
  }

  ghost predicate IsConn(s: State, p: Ptr) { p in s.heap && s.heap[p].event != EventAccept }

  /** A completed accept whose descriptor has not been given to a block yet. */
  ghost predicate NewFd(s: State, p: Ptr, fd: int) {
    p in s.heap && s.heap[p].event == EventAccept && p in s.ready && s.ready[p] == fd && fd >= 0
  }

  /** The block that answers for a descriptor. */
  ghost predicate Holds(s: State, p: Ptr, fd: int) {
    (IsConn(s, p) && s.heap[p].connfd == fd) || NewFd(s, p, fd)
  }

  ghost predicate HasHolder(s: State, fd: int) { exists p :: Holds(s, p, fd) }

  ghost predicate Listening(s: State) {
    && s.listener in s.open
    && (forall p :: p in s.heap && s.heap[p].event == EventAccept ==> s.heap[p].connfd == s.listener)
    && (forall p, q :: p in s.heap && q in s.heap && s.heap[p].event == EventAccept == s.heap[q].event ==> p == q)
  }

  /** Every open descriptor other than the listener's is held by exactly one block, and no other is held. */
  ghost predicate Descriptors(s: State) {
    && (forall p, fd :: Holds(s, p, fd) ==> fd in s.open && fd != s.listener)
    && (forall p, q, fd :: Holds(s, p, fd) && Holds(s, q, fd) ==> p == q)
    && (forall fd :: fd in s.open && fd != s.listener ==> HasHolder(s, fd))
  }

  /** What went out is, piece by piece, a non-empty prefix of what came in. */
  ghost predicate Prefixes(sent: seq<seq<Byte>>, received: seq<seq<Byte>>) {
    && |sent| <= |received| <= |sent| + 1
    && (forall j :: 0 <= j < |sent| ==> sent[j] <= received[j] && sent[j] != [])
  }

  /** The chunk a live connection still has to send, if any, sits in its own buffer. */
  ghost predicate Stream(s: State, p: Ptr)
    requires p in s.heap
  {
    var i := s.heap[p];
    && i.conn < |s.received| == |s.sent|
    && |i.buffer| == MAXLINE && 1 <= i.bufferLength <= MAXLINE
    && var came := s.received[i.conn]; var went := s.sent[i.conn];
    var got := p in s.ready && s.ready[p] > 0;
    && (p in s.ready ==> s.ready[p] <= i.bufferLength)
    && (i.event == (if got then EventWrite else EventRead) ==> |came| == |went|)
    && (i.event == EventRead && got ==>
          |came| == |went| + 1 && came[|went|] == i.buffer[..s.ready[p]])
    && (i.event == EventWrite && !got ==>
          |came| == |went| + 1 && came[|went|] == i.buffer[..i.bufferLength])
  }

  ghost predicate Streams(s: State) {
    && |s.received| == |s.sent| == s.accepted
    && (forall c :: 0 <= c < s.accepted ==> Prefixes(s.sent[c], s.received[c]))
    && (forall p :: IsConn(s, p) ==> Stream(s, p))
    && (forall p, q :: IsConn(s, p) && IsConn(s, q) && s.heap[p].conn == s.heap[q].conn ==> p == q)
  }

  ghost predicate Inv(s: State) { Ownership(s) && Listening(s) && Descriptors(s) && Streams(s) }
}
