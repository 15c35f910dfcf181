/**
The three-way handshake as quoted from Linux 6.4.3: clients, request sockets, child sockets, listeners,
and a network that may lose, duplicate, delay and reorder segments (section 3.5 of RFC 9293).
*/
module Handshake {
  import opened Common
  import opened SeqArith

  datatype Endpoint = Endpoint(addr: nat, port: nat)

  /** The four-tuple, seen from the side that connects. */
  datatype Flow = Flow(client: Endpoint, server: Endpoint)

  datatype Segment = Segment(
    src: Endpoint, dst: Endpoint, seqNo: SeqNo, ackNo: SeqNo, syn: bool, ack: bool, rst: bool, fin: bool)

  datatype TcpState = Close | SynSent | SynRecv | Established

  datatype ClientSock = ClientSock(
    state: TcpState, iss: SeqNo, irs: SeqNo, sndUna: SeqNo, sndNxt: SeqNo, rcvNxt: SeqNo)

  /** What the established table holds on the server: a half-open request or a child socket. */
  datatype ServerSock =
    | RequestSock(rcvIsn: SeqNo, sntIsn: SeqNo)
    | ChildSock(state: TcpState, rcvIsn: SeqNo, sntIsn: SeqNo, sndUna: SeqNo)

  /** One attempt to connect: the four-tuple and both initial sequence numbers. */
  datatype Conn = Conn(flow: Flow, iss: SeqNo, irs: SeqNo)

  /**
  `net` holds every segment ever sent; delivery takes any of them any number of times. `attempts`,
  `requests` and `reached` record the connects ever made, the request sockets ever created and the client
  connections ever established.
  */
  datatype System = System(
    listeners: set<Endpoint>, clients: map<Flow, ClientSock>, table: map<Flow, ServerSock>,
    net: set<Segment>, attempts: set<(Flow, SeqNo)>, requests: set<Conn>, reached: set<Conn>)

  // ---------------------------------------------------------------- segments

  function SynSegment(f: Flow, iss: SeqNo): Segment {
    Segment(f.client, f.server, iss, 0, true, false, false, false)
  }

  /** tcp_make_synack. */
  function SynAckSegment(f: Flow, rcvIsn: SeqNo, sntIsn: SeqNo): Segment {
    Segment(f.server, f.client, sntIsn, Succ(rcvIsn), true, true, false, false)
  }

  /** __tcp_send_ack. */
  function AckSegment(f: Flow, sndNxt: SeqNo, rcvNxt: SeqNo): Segment {
    Segment(f.client, f.server, sndNxt, rcvNxt, false, true, false, false)
  }

  /** The reset that answers an unacceptable segment, section 3.10.7.1 of RFC 9293. */
  function Reset(g: Segment): set<Segment> {
    if g.rst then {}
    else if g.ack then {Segment(g.dst, g.src, g.ackNo, 0, false, false, true, false)}
    else {Segment(g.dst, g.src, 0, Succ(g.seqNo), false, true, true, false)}
  }

  // ---------------------------------------------------------------- the client

  /** tcp_v4_connect and tcp_connect: the SYN takes one sequence number. */
  function Connect(iss: SeqNo): ClientSock {
    ClientSock(SynSent, iss, 0, iss, Succ(iss), 0)
  }

  /** tcp_rcv_synsent_state_process; the test for SYN after ACK and RST is that of section 3.10.7.3. */
  function RcvSynSent(c: ClientSock, f: Flow, g: Segment): (ClientSock, set<Segment>) {
    if g.ack then
      if !AckAcceptable(c.sndUna, c.sndNxt, g.ackNo) then (c, Reset(g))
      else if g.rst then (c.(state := Close), {})
      else if !g.syn then (c, {})
      else
        var d := c.(state := Established, irs := g.seqNo, sndUna := g.ackNo, rcvNxt := Succ(g.seqNo));
        (d, {AckSegment(f, d.sndNxt, d.rcvNxt)})
    else if g.rst then (c, {})
    else if g.syn then (c.(state := SynRecv), {})
    else (c, {})
  }

  // ---------------------------------------------------------------- the server

  /** tcp_check_req and the child's step to ESTABLISHED; its tests are those of section 3.10.7.4. */
  function CheckReq(r: ServerSock, g: Segment): Option<ServerSock>
    requires r.RequestSock?
  {
    if g.ack && !g.syn && !g.rst && AckAcceptable(r.sntIsn, Succ(r.sntIsn), g.ackNo)
    then Some(RcvSynRecv(CloneSock(r), g))
    else None
  }

  /** inet_csk_clone_lock: the child starts in SYN_RECV with the numbers of its request. */
  function CloneSock(r: ServerSock): ServerSock
    requires r.RequestSock?
  {
    ChildSock(SynRecv, r.rcvIsn, r.sntIsn, r.sntIsn)
  }

  /** The TCP_SYN_RECV case of tcp_rcv_state_process. */
  function RcvSynRecv(c: ServerSock, g: Segment): ServerSock
    requires c.ChildSock?
  {
    c.(state := Established, sndUna := g.ackNo)
  }

  // ---------------------------------------------------------------- steps

  datatype Action =
    | DoConnect(f: Flow, iss: SeqNo)
    | DoClientRcv(g: Segment)
    | DoServerRcv(g: Segment, isn: SeqNo, refuse: bool)
    | DoExpire(f: Flow)
    | DoClientClose(f: Flow)
    | DoServerClose(f: Flow)

  /** The server's initial number is new for the four-tuple. */
  ghost predicate FreshIsn(s: System, f: Flow, isn: SeqNo) {
    forall c :: c in s.requests && c.flow == f ==> c.irs != isn
  }

  ghost predicate Enabled(s: System, x: Action) {
    match x
    case DoConnect(f, iss) => f in s.clients ==> s.clients[f].state == Close
    case DoClientRcv(g) => g in s.net && Flow(g.dst, g.src) in s.clients
    case DoServerRcv(g, isn, _) =>
      g in s.net && (Flow(g.src, g.dst) !in s.table ==> FreshIsn(s, Flow(g.src, g.dst), isn))
    case DoExpire(f) => f in s.table && s.table[f].RequestSock?
    case DoClientClose(f) => f in s.clients
    case DoServerClose(f) => f in s.table && s.table[f].ChildSock?
  }

  function ClientRcv(s: System, g: Segment): System
    requires Flow(g.dst, g.src) in s.clients
  {
    var f := Flow(g.dst, g.src);
    var c := s.clients[f];
    if c.state != SynSent then s
    else
      var (d, out) := RcvSynSent(c, f, g);
      s.(clients := s.clients[f := d], net := s.net + out,
         reached := if d.state == Established then s.reached + {Conn(f, d.iss, d.irs)} else s.reached)
  }

  /** TCP_LISTEN of tcp_rcv_state_process; `refuse` when conn_request makes no request. */
  function Listen(s: System, g: Segment, isn: SeqNo, refuse: bool): System {
    var f := Flow(g.src, g.dst);
    if g.ack then s.(net := s.net + Reset(g))
    else if g.rst then s
    else if g.syn then
      if g.fin || refuse then s
      else
        s.(table := s.table[f := RequestSock(g.seqNo, isn)],
           net := s.net + {SynAckSegment(f, g.seqNo, isn)},
           requests := s.requests + {Conn(f, g.seqNo, isn)})
    else s
  }

  /** tcp_v4_rcv: the established table is searched before the listeners. */
  function ServerRcv(s: System, g: Segment, isn: SeqNo, refuse: bool): System {
    var f := Flow(g.src, g.dst);
    if f in s.table then
      if s.table[f].ChildSock? then s
      else if g.rst then s.(table := s.table - {f})
      else if g.syn && !g.ack then
        s.(net := s.net + {SynAckSegment(f, s.table[f].rcvIsn, s.table[f].sntIsn)})
      else
        match CheckReq(s.table[f], g)
        case Some(child) => if refuse then s else s.(table := s.table[f := child])
        case None => s.(net := s.net + Reset(g))
    else if g.dst in s.listeners then Listen(s, g, isn, refuse)
    else s.(net := s.net + Reset(g))
  }

  ghost function Apply(s: System, x: Action): System
    requires Enabled(s, x)
  {
    match x
    case DoConnect(f, iss) =>
      s.(clients := s.clients[f := Connect(iss)], net := s.net + {SynSegment(f, iss)},
         attempts := s.attempts + {(f, iss)})
    case DoClientRcv(g) => ClientRcv(s, g)
    case DoServerRcv(g, isn, refuse) => ServerRcv(s, g, isn, refuse)
    case DoExpire(f) => s.(table := s.table - {f})
    case DoClientClose(f) => s.(clients := s.clients[f := s.clients[f].(state := Close)])
    case DoServerClose(f) => s.(table := s.table - {f})
  }

  ghost predicate IsRun(s: System, run: seq<Action>)
    decreases |run|
  {
    run == [] || (Enabled(s, run[0]) && IsRun(Apply(s, run[0]), run[1..]))
  }

  ghost function Last(s: System, run: seq<Action>): System
    requires IsRun(s, run)
    decreases |run|
  {
    if run == [] then s else Last(Apply(s, run[0]), run[1..])
  }

  function Init(listeners: set<Endpoint>): System {
    System(listeners, map[], map[], {}, {}, {}, {})
  }

  // ---------------------------------------------------------------- the answer to every segment

  /** The number after `x`, modulo 2^32. */
  ghost predicate Next(x: SeqNo, y: SeqNo) { y == if x == 0xFFFF_FFFF then 0 else x + 1 }

  /** A socket `c` in SYN-SENT that receives `g` becomes `d` and sends `out`, by flags and numbers. */
  ghost predicate SynSentAnswer(c: ClientSock, f: Flow, g: Segment, d: ClientSock, out: set<Segment>) {
    var acked := g.ack && Next(c.iss, g.ackNo);
    && (d.state == Established <==> acked && g.syn && !g.rst)
    && (d.state == Close <==> acked && g.rst)
    && (d.state == SynRecv <==> g.syn && !g.ack && !g.rst)
    && (d.state != Established ==> d == c.(state := d.state))
    && (d.state == Established ==> exists after, reply ::
          && Next(g.seqNo, after) && d.iss == c.iss && d.irs == g.seqNo
          && d.sndUna == d.sndNxt == g.ackNo && d.rcvNxt == after
          && reply == Segment(f.client, f.server, g.ackNo, after, false, true, false, false) && out == {reply})
    && (g.ack && !acked && !g.rst ==>
          out == {Segment(g.dst, g.src, g.ackNo, 0, false, false, true, false)})
    && (d.state != Established && (acked || !g.ack || g.rst) ==> out == {})
  }

  /** Refusal, simultaneous open and everything else a client in SYN-SENT may receive. */
  lemma SynSentCases(c: ClientSock, f: Flow, g: Segment)
    requires c.state == SynSent && c.sndUna == c.iss && c.sndNxt == Succ(c.iss)
    ensures var (d, out) := RcvSynSent(c, f, g); SynSentAnswer(c, f, g, d, out)
  {
    SynAckAcceptable(c.iss, g.ackNo);
    var (d, out) := RcvSynSent(c, f, g);
    if d.state == Established { assert Next(g.seqNo, d.rcvNxt); }
  }

  /** A client's step: only the socket of the four-tuple changes, and only in SYN-SENT. */
  lemma ClientCases(s: System, g: Segment)
    requires Reachable(s) && Flow(g.dst, g.src) in s.clients
    ensures var f := Flow(g.dst, g.src); var t := ClientRcv(s, g);
      && (s.clients[f].state != SynSent ==> t == s)
      && t.clients.Keys == s.clients.Keys && t.clients - {f} == s.clients - {f}
      && t.table == s.table && t.listeners == s.listeners && t.attempts == s.attempts && t.requests == s.requests
      && (s.clients[f].state == SynSent ==>
            && (exists out :: t.net == s.net + out && SynSentAnswer(s.clients[f], f, g, t.clients[f], out))
            && t.reached == if t.clients[f].state == Established
                            then s.reached + {Conn(f, s.clients[f].iss, g.seqNo)} else s.reached)
  {
    var f := Flow(g.dst, g.src);
    assert ClientOk(s, f, s.clients[f]) by { ReachableInv(s); }
    if s.clients[f].state == SynSent { SynSentCases(s.clients[f], f, g); }
  }

  /** The reset of a segment that nothing accepts. */
  ghost predicate IsReset(g: Segment, out: set<Segment>) {
    if g.rst then out == {}
    else if g.ack then out == {Segment(g.dst, g.src, g.ackNo, 0, false, false, true, false)}
    else exists after :: Next(g.seqNo, after) && out == {Segment(g.dst, g.src, 0, after, false, true, true, false)}
  }

  /** `out` is the SYN-ACK that answers number `rcvIsn` with number `sntIsn`. */
  ghost predicate IsSynAck(f: Flow, rcvIsn: SeqNo, sntIsn: SeqNo, out: set<Segment>) {
    exists after ::
      Next(rcvIsn, after) && out == {Segment(f.server, f.client, sntIsn, after, true, true, false, false)}
  }

  /** A request `r` that receives `g` is removed, becomes a child, or stays as it is; and `out` is sent. */
  ghost predicate RequestAnswer(
    f: Flow, r: ServerSock, g: Segment, refuse: bool, now: Option<ServerSock>, out: set<Segment>)
    requires r.RequestSock?
  {
    var acked := g.ack && !g.syn && Next(r.sntIsn, g.ackNo);
    && (now == None <==> g.rst)
    && (now.Some? && now.value.ChildSock? <==> acked && !g.rst && !refuse)
    && (now.Some? && now.value.ChildSock? ==>
          now.value == ChildSock(Established, r.rcvIsn, r.sntIsn, g.ackNo))
    && (now.Some? && now.value.RequestSock? ==> now.value == r)
    && (if g.rst || acked then out == {}
        else if g.syn && !g.ack then IsSynAck(f, r.rcvIsn, r.sntIsn, out)
        else IsReset(g, out))
  }

  /** A four-tuple without a socket that receives `g` gets a request or nothing; and `out` is sent. */
  ghost predicate FreeAnswer(
    listening: bool, g: Segment, isn: SeqNo, refuse: bool, now: Option<ServerSock>, out: set<Segment>)
  {
    var opens := listening && g.syn && !g.ack && !g.rst && !g.fin && !refuse;
    && now == (if opens then Some(RequestSock(g.seqNo, isn)) else None)
    && (if opens then IsSynAck(Flow(g.src, g.dst), g.seqNo, isn, out)
        else if listening && !g.ack then out == {}
        else IsReset(g, out))
  }

  function SockAt(table: map<Flow, ServerSock>, f: Flow): Option<ServerSock> {
    if f in table then Some(table[f]) else None
  }

  /** What a server does with any segment: the four-tuple's socket, and what is sent; nothing else changes. */
  ghost predicate ServerAnswer(table: map<Flow, ServerSock>, listeners: set<Endpoint>, g: Segment, isn: SeqNo,
                               refuse: bool, now: map<Flow, ServerSock>, out: set<Segment>) {
    var f := Flow(g.src, g.dst);
    && now - {f} == table - {f}
    && (if f !in table then FreeAnswer(g.dst in listeners, g, isn, refuse, SockAt(now, f), out)
        else if table[f].ChildSock? then SockAt(now, f) == Some(table[f]) && out == {}
        else RequestAnswer(f, table[f], g, refuse, SockAt(now, f), out))
  }

  lemma NextIsSucc(x: SeqNo)
    ensures Next(x, Succ(x)) && forall y :: Next(x, y) ==> y == Succ(x)
  {}

  lemma RequestCases(s: System, g: Segment, isn: SeqNo, refuse: bool)
    requires var f := Flow(g.src, g.dst); f in s.table && s.table[f].RequestSock?
    ensures var f := Flow(g.src, g.dst); var t := ServerRcv(s, g, isn, refuse);
      exists out :: t.net == s.net + out && RequestAnswer(f, s.table[f], g, refuse, SockAt(t.table, f), out)
  {
    var f := Flow(g.src, g.dst);
    var r := s.table[f];
    SynAckAcceptable(r.sntIsn, g.ackNo);
    NextIsSucc(r.sntIsn);
    NextIsSucc(r.rcvIsn);
    NextIsSucc(g.seqNo);
    var t := ServerRcv(s, g, isn, refuse);
    var acked := g.ack && !g.syn && Next(r.sntIsn, g.ackNo);
    var out := if g.rst || acked then {}
               else if g.syn && !g.ack then {SynAckSegment(f, r.rcvIsn, r.sntIsn)} else Reset(g);
    assert t.net == s.net + out;
    assert RequestAnswer(f, r, g, refuse, SockAt(t.table, f), out);
  }

  lemma FreeCases(s: System, g: Segment, isn: SeqNo, refuse: bool)
    requires Flow(g.src, g.dst) !in s.table
    ensures var f := Flow(g.src, g.dst); var t := ServerRcv(s, g, isn, refuse);
      exists out :: t.net == s.net + out && FreeAnswer(g.dst in s.listeners, g, isn, refuse, SockAt(t.table, f), out)
  {
    var f := Flow(g.src, g.dst);
    NextIsSucc(g.seqNo);
    var t := ServerRcv(s, g, isn, refuse);
    var listening := g.dst in s.listeners;
    var out := if listening && g.syn && !g.ack && !g.rst && !g.fin && !refuse then {SynAckSegment(f, g.seqNo, isn)}
               else if listening && !g.ack then {} else Reset(g);
    assert t.net == s.net + out;
    assert FreeAnswer(listening, g, isn, refuse, SockAt(t.table, f), out);
  }

  /** A server answers every segment as its flags and numbers demand, whatever its tables hold. */
  lemma ServerCases(s: System, g: Segment, isn: SeqNo, refuse: bool)
    ensures var t := ServerRcv(s, g, isn, refuse);
      && t.clients == s.clients && t.listeners == s.listeners
      && t.attempts == s.attempts && t.reached == s.reached
      && (var f := Flow(g.src, g.dst);
          t.requests == if f !in s.table && f in t.table then s.requests + {Conn(f, g.seqNo, isn)} else s.requests)
      && exists out :: t.net == s.net + out &&
           ServerAnswer(s.table, s.listeners, g, isn, refuse, t.table, out)
  {
    var f := Flow(g.src, g.dst);
    var t := ServerRcv(s, g, isn, refuse);
    assert t.table - {f} == s.table - {f};
    if f !in s.table {
      FreeCases(s, g, isn, refuse);
      var out :| t.net == s.net + out && FreeAnswer(g.dst in s.listeners, g, isn, refuse, SockAt(t.table, f), out);
      assert ServerAnswer(s.table, s.listeners, g, isn, refuse, t.table, out);
    } else if s.table[f].RequestSock? {
      RequestCases(s, g, isn, refuse);
      var out :| t.net == s.net + out && RequestAnswer(f, s.table[f], g, refuse, SockAt(t.table, f), out);
      assert ServerAnswer(s.table, s.listeners, g, isn, refuse, t.table, out);
    } else {
      assert t.net == s.net + {};
      assert ServerAnswer(s.table, s.listeners, g, isn, refuse, t.table, {});
    }
  }

  // ---------------------------------------------------------------- invariant

  /** A SYN-ACK in the network came from a request with its numbers. */
  ghost predicate SynAckLogged(s: System, g: Segment) {
    g.syn && g.ack ==> Conn(Flow(g.dst, g.src), Pred(g.ackNo), g.seqNo) in s.requests
  }

  /** A plain ACK in the network came from a client that reached ESTABLISHED with its numbers. */
  ghost predicate AckLogged(s: System, g: Segment) {
    g.ack && !g.syn && !g.rst ==> Conn(Flow(g.src, g.dst), Pred(g.seqNo), Pred(g.ackNo)) in s.reached
  }

  /** A SYN in the network came from a connect on its four-tuple. */
  ghost predicate SynLogged(s: System, g: Segment) {
    g.syn && !g.ack ==> (Flow(g.src, g.dst), g.seqNo) in s.attempts
  }

  ghost predicate NetLogged(s: System) {
    forall g :: g in s.net ==> SynLogged(s, g) && SynAckLogged(s, g) && AckLogged(s, g)
  }

  ghost predicate ClientOk(s: System, f: Flow, c: ClientSock) {
    && (c.state == SynSent ==> c.sndUna == c.iss && c.sndNxt == Succ(c.iss))
    && (c.state == Established ==> Conn(f, c.iss, c.irs) in s.reached && c.rcvNxt == Succ(c.irs))
  }

  ghost predicate ServerOk(s: System, f: Flow, r: ServerSock) {
    && Conn(f, r.rcvIsn, r.sntIsn) in s.requests
    && (r.ChildSock? ==>
          r.state == Established && Conn(f, r.rcvIsn, r.sntIsn) in s.reached && r.sndUna == Succ(r.sntIsn))
  }

  ghost predicate Inv(s: System) {
    && NetLogged(s)
    && s.reached <= s.requests
    && (forall c :: c in s.requests ==> (c.flow, c.iss) in s.attempts)
    && (forall a, b :: a in s.requests && b in s.requests && a.flow == b.flow && a.irs == b.irs ==> a == b)
    && (forall f :: f in s.clients ==> ClientOk(s, f, s.clients[f]))
    && (forall f :: f in s.table ==> ServerOk(s, f, s.table[f]))
  }

  lemma ClientRcvKeepsInv(s: System, g: Segment)
    requires Inv(s) && Enabled(s, DoClientRcv(g))
    ensures Inv(ClientRcv(s, g))
  {
    var f := Flow(g.dst, g.src);
    var c := s.clients[f];
    assert ClientOk(s, f, c) && SynAckLogged(s, g);
    SynAckAcceptable(c.iss, g.ackNo);
    PredSucc(c.iss);
    PredSucc(g.seqNo);
  }

  lemma ListenKeepsInv(s: System, g: Segment, isn: SeqNo, refuse: bool)
    requires Inv(s) && g in s.net && FreshIsn(s, Flow(g.src, g.dst), isn)
    ensures Inv(Listen(s, g, isn, refuse))
  {}

  lemma ServerRcvKeepsInv(s: System, g: Segment, isn: SeqNo, refuse: bool)
    requires Inv(s) && Enabled(s, DoServerRcv(g, isn, refuse))
    ensures Inv(ServerRcv(s, g, isn, refuse))
  {
    var f := Flow(g.src, g.dst);
    if f in s.table {
      var r := s.table[f];
      assert ServerOk(s, f, r) && AckLogged(s, g);
      SynAckAcceptable(r.sntIsn, g.ackNo);
      PredSucc(r.sntIsn);
      PredSucc(r.rcvIsn);
    } else if g.dst in s.listeners {
      ListenKeepsInv(s, g, isn, refuse);
    }
  }

  lemma StepKeepsInv(s: System, x: Action)
    requires Inv(s) && Enabled(s, x)
    ensures Inv(Apply(s, x))
  {
    match x
    case DoClientRcv(g) => ClientRcvKeepsInv(s, g);
    case DoServerRcv(g, isn, refuse) => ServerRcvKeepsInv(s, g, isn, refuse);
    case _ =>
  }

  lemma {:induction false} RunKeepsInv(s: System, run: seq<Action>)
    requires Inv(s) && IsRun(s, run)
    ensures Inv(Last(s, run))
    decreases |run|
  {
    if run != [] {
      StepKeepsInv(s, run[0]);
      RunKeepsInv(Apply(s, run[0]), run[1..]);
    }
  }

  // ---------------------------------------------------------------- agreement

  ghost predicate Reachable(s: System) {
    exists listeners, run :: IsRun(Init(listeners), run) && Last(Init(listeners), run) == s
  }

  lemma ReachableInv(s: System)
    requires Reachable(s)
    ensures Inv(s)
  {
    var listeners, run :| IsRun(Init(listeners), run) && Last(Init(listeners), run) == s;
    RunKeepsInv(Init(listeners), run);
  }

  /** An established client talks to a server that made a request with exactly its two numbers. */
  lemma ClientAgreement(s: System, f: Flow)
    requires Reachable(s) && f in s.clients && s.clients[f].state == Established
    ensures Conn(f, s.clients[f].iss, s.clients[f].irs) in s.requests
    ensures s.clients[f].rcvNxt == Succ(s.clients[f].irs)
    ensures forall c :: c in s.requests && c.flow == f && c.irs == s.clients[f].irs ==> c.iss == s.clients[f].iss
  {
    ReachableInv(s);
    assert ClientOk(s, f, s.clients[f]);
  }

  /** An established child has a client that connected and reached ESTABLISHED with the same two numbers. */
  lemma ServerAgreement(s: System, f: Flow)
    requires Reachable(s) && f in s.table && s.table[f].ChildSock?
    ensures var r := s.table[f];
      && r.state == Established && r.sndUna == Succ(r.sntIsn)
      && Conn(f, r.rcvIsn, r.sntIsn) in s.reached && (f, r.rcvIsn) in s.attempts
  {
    ReachableInv(s);
    assert ServerOk(s, f, s.table[f]);
  }

  /** If both ends are established on a four-tuple with the same server number, they agree on both numbers. */
  lemma BothAgree(s: System, f: Flow)
    requires Reachable(s) && f in s.clients && s.clients[f].state == Established
    requires f in s.table && s.table[f].ChildSock? && s.table[f].sntIsn == s.clients[f].irs
    ensures s.table[f].rcvIsn == s.clients[f].iss
  {
    ReachableInv(s);
    assert ClientOk(s, f, s.clients[f]) && ServerOk(s, f, s.table[f]);
  }

  /** From any state with the four-tuple free and the server listening, three segments connect both ends. */
  lemma HandshakeCompletes(s: System, f: Flow, iss: SeqNo, isn: SeqNo)
    requires f.server in s.listeners && f !in s.table && (f in s.clients ==> s.clients[f].state == Close)
    requires FreshIsn(s, f, isn)
    ensures var run := [DoConnect(f, iss), DoServerRcv(SynSegment(f, iss), isn, false),
                        DoClientRcv(SynAckSegment(f, iss, isn)),
                        DoServerRcv(AckSegment(f, Succ(iss), Succ(isn)), 0, false)];
      && IsRun(s, run)
      && var t := Last(s, run);
      && f in t.clients && t.clients[f] == ClientSock(Established, iss, isn, Succ(iss), Succ(iss), Succ(isn))
      && f in t.table && t.table[f] == ChildSock(Established, iss, isn, Succ(isn))
  {
    SynAckAcceptable(iss, Succ(iss));
    SynAckAcceptable(isn, Succ(isn));
    var a := DoConnect(f, iss);
    var b := DoServerRcv(SynSegment(f, iss), isn, false);
    var c := DoClientRcv(SynAckSegment(f, iss, isn));
    var d := DoServerRcv(AckSegment(f, Succ(iss), Succ(isn)), 0, false);
    var s1 := Apply(s, a);
    var s2 := Apply(s1, b);
    var s3 := Apply(s2, c);
    var s4 := Apply(s3, d);
    assert IsRun(s4, []) && Last(s4, []) == s4;
    OneStep(s3, d, []);
    OneStep(s2, c, [d]);
    OneStep(s1, b, [c, d]);
    OneStep(s, a, [b, c, d]);
    assert [a] + [b, c, d] == [a, b, c, d] && [b] + [c, d] == [b, c, d] && [c] + [d] == [c, d] && [d] + [] == [d];
  }

  /** Where nobody listens, the SYN is answered by a reset that returns the client to CLOSE. */
  lemma ConnectIsRefused(s: System, f: Flow, iss: SeqNo, isn: SeqNo)
    requires f.server !in s.listeners && f !in s.table && (f in s.clients ==> s.clients[f].state == Close)
    requires FreshIsn(s, f, isn)
    ensures var reset := Segment(f.server, f.client, 0, Succ(iss), false, true, true, false);
      var run := [DoConnect(f, iss), DoServerRcv(SynSegment(f, iss), isn, false), DoClientRcv(reset)];
      && IsRun(s, run)
      && var t := Last(s, run);
      && f in t.clients && t.clients[f].state == Close && t.table == s.table
      && t.requests == s.requests && t.reached == s.reached
  {
    SynAckAcceptable(iss, Succ(iss));
    var a := DoConnect(f, iss);
    var b := DoServerRcv(SynSegment(f, iss), isn, false);
    var c := DoClientRcv(Segment(f.server, f.client, 0, Succ(iss), false, true, true, false));
    var s1 := Apply(s, a);
    var s2 := Apply(s1, b);
    var s3 := Apply(s2, c);
    assert IsRun(s3, []) && Last(s3, []) == s3;
    OneStep(s2, c, []);
    OneStep(s1, b, [c]);
    OneStep(s, a, [b, c]);
    assert [a] + [b, c] == [a, b, c] && [b] + [c] == [b, c] && [c] + [] == [c];
  }

  lemma OneStep(s: System, x: Action, rest: seq<Action>)
    requires Enabled(s, x) && IsRun(Apply(s, x), rest)
    ensures IsRun(s, [x] + rest) && Last(s, [x] + rest) == Last(Apply(s, x), rest)
  {}

  /** A first connection with numbers 1 and 9 ends, and its client connects again with number 0. */
  function SecondAttempt(f: Flow): System {
    var ack := AckSegment(f, 2, 10);
    System({f.server}, map[f := Connect(0)], map[],
           {SynSegment(f, 1), SynAckSegment(f, 1, 9), ack, SynSegment(f, 0)},
           {(f, 1), (f, 0)}, {Conn(f, 1, 9)}, {Conn(f, 1, 9)})
  }

  /** The first connection, established at its client while the server still waits for the ACK. */
  function FirstConnection(f: Flow): System {
    System({f.server}, map[f := ClientSock(Established, 1, 9, 2, 2, 10)], map[f := RequestSock(1, 9)],
           {SynSegment(f, 1), SynAckSegment(f, 1, 9), AckSegment(f, 2, 10)},
           {(f, 1)}, {Conn(f, 1, 9)}, {Conn(f, 1, 9)})
  }

  lemma SecondFollowsFirst(f: Flow)
    ensures var run := [DoClientClose(f)] + ([DoExpire(f)] + ([DoConnect(f, 0)] + []));
      IsRun(FirstConnection(f), run) && Last(FirstConnection(f), run) == SecondAttempt(f)
  {
    var d, e, g := DoClientClose(f), DoExpire(f), DoConnect(f, 0);
    var s3 := FirstConnection(f);
    var s4 := Apply(s3, d);
    var s5 := Apply(s4, e);
    var s6 := Apply(s5, g);
    assert s6.clients == SecondAttempt(f).clients && s6.table == SecondAttempt(f).table;
    assert s6 == SecondAttempt(f);
    assert IsRun(s6, []) && Last(s6, []) == s6;
    OneStep(s5, g, []);
    OneStep(s4, e, [g] + []);
    OneStep(s3, d, [e] + ([g] + []));
  }

  lemma SecondAttemptIsReachable(f: Flow)
    ensures Reachable(SecondAttempt(f))
  {
    SynAckAcceptable(1, 2);
    var a := DoConnect(f, 1);
    var b := DoServerRcv(SynSegment(f, 1), 9, false);
    var c := DoClientRcv(SynAckSegment(f, 1, 9));
    var s0 := Init({f.server});
    var s1 := Apply(s0, a);
    var s2 := Apply(s1, b);
    var s3 := Apply(s2, c);
    assert s3.clients == FirstConnection(f).clients && s3.table == FirstConnection(f).table;
    assert s3 == FirstConnection(f);
    SecondFollowsFirst(f);
    var rest := [DoClientClose(f)] + ([DoExpire(f)] + ([DoConnect(f, 0)] + []));
    OneStep(s2, c, rest);
    OneStep(s1, b, [c] + rest);
    OneStep(s0, a, [b] + ([c] + rest));
  }

  /**
  Freshness is needed: if the server reused its number 9 for the second attempt, the old ACK (whose
  sequence number lies in the receive window) would establish a child whose client is still in SYN-SENT.
  */
  lemma ReusedIsnBreaksAgreement(f: Flow)
    ensures var s := SecondAttempt(f);
      var t := ServerRcv(ServerRcv(s, SynSegment(f, 0), 9, false), AckSegment(f, 2, 10), 0, false);
      && !FreshIsn(s, f, 9) && SynSegment(f, 0) in s.net && AckSegment(f, 2, 10) in s.net
      && f in t.table && t.table[f] == ChildSock(Established, 0, 9, 10)
      && t.clients[f].state == SynSent && Conn(f, 0, 9) !in t.reached
  {}
}
