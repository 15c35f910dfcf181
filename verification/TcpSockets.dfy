/** The sockets of the handshake with their fields changed in place, as the quoted functions do it. */
module TcpSockets {
  import opened Common
  import opened SeqArith
  import opened Handshake

  /** A socket that connects: tcp_v4_connect, tcp_connect, tcp_rcv_synsent_state_process. */
  class ActiveSocket {
    const flow: Flow
    var state: TcpState
    var iss: SeqNo
    var irs: SeqNo
    var sndUna: SeqNo
    var sndNxt: SeqNo
    var rcvNxt: SeqNo

    function Sock(): ClientSock
      reads this
    {
      ClientSock(state, iss, irs, sndUna, sndNxt, rcvNxt)
    }

    constructor (flow: Flow)
      ensures this.flow == flow && state == Close
    {
      this.flow := flow;
      state, iss, irs, sndUna, sndNxt, rcvNxt := Close, 0, 0, 0, 0, 0;
    }

    /** The SYN is sent with write_seq, which it then uses up. */
    method StartConnect(isn: SeqNo) returns (out: Segment)
      requires state == Close
      modifies this
      ensures Sock() == Handshake.Connect(isn) && out == SynSegment(flow, isn)
      ensures state == SynSent && iss == sndUna == isn && Next(isn, sndNxt)
      ensures out.src == flow.client && out.dst == flow.server && out.seqNo == isn
      ensures out.syn && !out.ack && !out.rst && !out.fin
    {
      state := SynSent;
      iss, irs, sndUna, rcvNxt := isn, 0, isn, 0;
      var writeSeq := isn;
      out := Segment(flow.client, flow.server, writeSeq, 0, true, false, false, false);
      writeSeq := Succ(writeSeq);
      sndNxt := writeSeq;
    }

    /**
    It leaves SYN-SENT for ESTABLISHED exactly on a SYN-ACK of its own number, for CLOSE exactly on a reset that
    acknowledges that number, and for SYN-RECV exactly on a SYN without ACK or RST; otherwise it stays as it is.
    */
    method Receive(g: Segment) returns (out: set<Segment>)
      requires state == SynSent && sndUna == iss && sndNxt == Succ(iss)
      modifies this
      ensures (Sock(), out) == RcvSynSent(old(Sock()), flow, g)
      ensures SynSentAnswer(old(Sock()), flow, g, Sock(), out)
      ensures state == Established <==> g.syn && g.ack && !g.rst && g.ackNo == Succ(iss)
      ensures state == Close <==> g.ack && g.rst && g.ackNo == Succ(iss)
      ensures state == SynRecv <==> g.syn && !g.ack && !g.rst
      ensures state == SynSent ==> Sock() == old(Sock())
      ensures iss == old(iss)
    {
      SynAckAcceptable(iss, g.ackNo);
      SynSentCases(Sock(), flow, g);
      out := {};
      if g.ack {
        if !After(g.ackNo, sndUna) || After(g.ackNo, sndNxt) {
          out := Reset(g);
          return;
        }
        if g.rst {
          state := Close;
          return;
        }
        if !g.syn {
          return;
        }
        irs := g.seqNo;
        sndUna := g.ackNo;
        rcvNxt := Succ(g.seqNo);
        state := Established;
        out := {AckSegment(flow, sndNxt, rcvNxt)};
        return;
      }
      if g.rst {
        return;
      }
      if g.syn {
        state := SynRecv;
      }
    }
  }

  /** The server's answer on a system with nothing in the network: what is sent is what is then there. */
  lemma ServerAnswers(table: map<Flow, ServerSock>, listeners: set<Endpoint>, g: Segment, isn: SeqNo, refuse: bool)
    ensures var t := ServerRcv(System(listeners, map[], table, {}, {}, {}, {}), g, isn, refuse);
      ServerAnswer(table, listeners, g, isn, refuse, t.table, t.net)
  {
    var s := System(listeners, map[], table, {}, {}, {}, {});
    ServerCases(s, g, isn, refuse);
    var t := ServerRcv(s, g, isn, refuse);
    var out :| t.net == s.net + out && ServerAnswer(s.table, s.listeners, g, isn, refuse, t.table, out);
    assert out == t.net;
  }

  /** The receiving side: listeners, request sockets and child sockets. */
  class PassiveHost {
    const listeners: set<Endpoint>
    var table: map<Flow, ServerSock>

    constructor (listeners: set<Endpoint>)
      ensures this.listeners == listeners && table == map[]
    {
      this.listeners := listeners;
      table := map[];
    }

    /** tcp_rcv_state_process in TCP_LISTEN. */
    method ReceiveListen(g: Segment, isn: SeqNo, refuse: bool) returns (out: set<Segment>)
      modifies this
      ensures forall s: System :: s.table == old(table) ==>
        var t := Listen(s, g, isn, refuse); t.table == table && t.net == s.net + out
    {
      out := {};
      if g.ack {
        out := Reset(g);
        return;
      }
      if g.rst {
        return;
      }
      if g.syn {
        if g.fin || refuse {
          return;
        }
        var f := Flow(g.src, g.dst);
        table := table[f := RequestSock(g.seqNo, isn)];
        out := {SynAckSegment(f, g.seqNo, isn)};
      }
    }

    /**
    tcp_v4_rcv on the server: what it does is the server's step of the protocol, and what that is follows from
    the flags and numbers of the segment.
    */
    method Receive(g: Segment, isn: SeqNo, refuse: bool) returns (out: set<Segment>)
      modifies this
      ensures forall s: System :: s.table == old(table) && s.listeners == listeners ==>
        var t := ServerRcv(s, g, isn, refuse); t.table == table && t.net == s.net + out
      ensures ServerAnswer(old(table), listeners, g, isn, refuse, table, out)
    {
      ServerAnswers(table, listeners, g, isn, refuse);
      out := {};
      var f := Flow(g.src, g.dst);
      if f !in table {
        if g.dst in listeners {
          out := ReceiveListen(g, isn, refuse);
        } else {
          out := Reset(g);
        }
        return;
      }
      var sk := table[f];
      if sk.ChildSock? {
        return;
      }
      if g.rst {
        table := table - {f};
        return;
      }
      if g.syn && !g.ack {
        out := {SynAckSegment(f, sk.rcvIsn, sk.sntIsn)};
        return;
      }
      if g.ack && !g.syn && AckAcceptable(sk.sntIsn, Succ(sk.sntIsn), g.ackNo) {
        if !refuse {
          var child := ChildSock(SynRecv, sk.rcvIsn, sk.sntIsn, sk.sntIsn);
          child := child.(state := Established, sndUna := g.ackNo);
          table := table[f := child];
        }
        return;
      }
      out := Reset(g);
    }
  }
}
