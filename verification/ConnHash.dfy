/** The hash of connections: inet_ehash_insert, __inet_lookup_established and __inet_lookup. */
module ConnHash {
  import opened Common

  /** A socket with the four fields it is hashed by, its stored hash, and an identity. */
  datatype Sock = Sock(rcvSaddr: nat, num: nat, daddr: nat, dport: nat, hash: nat, id: nat)

  /** A four-tuple from the socket's side: local address and port, remote address and port. */
  datatype Tuple = Tuple(laddr: nat, lport: nat, raddr: nat, rport: nat)

  function TupleOf(sk: Sock): Tuple { Tuple(sk.rcvSaddr, sk.num, sk.daddr, sk.dport) }

  /** The hash of a four-tuple, any function at all. */
  type HashFn = (nat, nat, nat, nat) -> nat

  /** sk_ehashfn. */
  function Hashed(h: HashFn, sk: Sock): Sock {
    sk.(hash := h(sk.rcvSaddr, sk.num, sk.daddr, sk.dport))
  }

  function Slot(hash: nat, size: nat): (r: nat)
    requires size > 0
    ensures r < size
  {
    hash % size
  }

  /** inet_match: the packet's source is the socket's remote end. */
  predicate Match(sk: Sock, saddr: nat, sport: nat, daddr: nat, hnum: nat) {
    sk.daddr == saddr && sk.rcvSaddr == daddr && sk.dport == sport && sk.num == hnum
  }

  /** The first socket of a chain with this hash and these addresses and ports. */
  function FirstMatch(chain: seq<Sock>, hash: nat, saddr: nat, sport: nat, daddr: nat, hnum: nat): Option<Sock> {
    if chain == [] then None
    else if chain[0].hash == hash && Match(chain[0], saddr, sport, daddr, hnum) then Some(chain[0])
    else FirstMatch(chain[1..], hash, saddr, sport, daddr, hnum)
  }

  function Insert(h: HashFn, chains: seq<seq<Sock>>, sk: Sock): seq<seq<Sock>>
    requires |chains| > 0
  {
    var s := Hashed(h, sk);
    var i := Slot(s.hash, |chains|);
    chains[i := [s] + chains[i]]
  }

  /** Lookup by a packet's source and destination. */
  function Lookup(h: HashFn, chains: seq<seq<Sock>>, saddr: nat, sport: nat, daddr: nat, hnum: nat): Option<Sock>
    requires |chains| > 0
  {
    var hash := h(daddr, hnum, saddr, sport);
    FirstMatch(chains[Slot(hash, |chains|)], hash, saddr, sport, daddr, hnum)
  }

  function Get(m: map<Tuple, Sock>, t: Tuple): Option<Sock> { if t in m then Some(m[t]) else None }

  /** The chained table answers every packet as the plain map does. */
  ghost predicate Agrees(h: HashFn, chains: seq<seq<Sock>>, m: map<Tuple, Sock>)
    requires |chains| > 0
  {
    forall saddr, sport, daddr, hnum ::
      Lookup(h, chains, saddr, sport, daddr, hnum) == Get(m, Tuple(daddr, hnum, saddr, sport))
  }

  lemma InsertAgrees(h: HashFn, chains: seq<seq<Sock>>, m: map<Tuple, Sock>, sk: Sock)
    requires |chains| > 0 && Agrees(h, chains, m)
    ensures Agrees(h, Insert(h, chains, sk), m[TupleOf(sk) := Hashed(h, sk)])
  {}

  /** The table and the map after a history of insertions. */
  function Table(h: HashFn, size: nat, history: seq<Sock>): (r: seq<seq<Sock>>)
    requires size > 0
    ensures |r| == size
  {
    if history == [] then seq(size, _ => [])
    else Insert(h, Table(h, size, history[..|history| - 1]), history[|history| - 1])
  }

  function Plain(h: HashFn, history: seq<Sock>): map<Tuple, Sock> {
    if history == [] then map[]
    else
      var sk := history[|history| - 1];
      Plain(h, history[..|history| - 1])[TupleOf(sk) := Hashed(h, sk)]
  }

  /** For any hash function, any number of buckets and any history, collisions make no difference. */
  lemma {:induction false} TableIsMap(h: HashFn, size: nat, history: seq<Sock>)
    requires size > 0
    ensures Agrees(h, Table(h, size, history), Plain(h, history))
    decreases |history|
  {
    if history != [] {
      var n := |history| - 1;
      TableIsMap(h, size, history[..n]);
      InsertAgrees(h, Table(h, size, history[..n]), Plain(h, history[..n]), history[n]);
    }
  }

  /** The latest socket inserted for a four-tuple is the one its packets reach, with its hash filled in. */
  lemma {:induction false} LatestWins(h: HashFn, size: nat, history: seq<Sock>, i: nat)
    requires size > 0 && i < |history|
    requires forall j :: i < j < |history| ==> TupleOf(history[j]) != TupleOf(history[i])
    ensures var sk := history[i];
      Lookup(h, Table(h, size, history), sk.daddr, sk.dport, sk.rcvSaddr, sk.num) ==
        Some(sk.(hash := h(sk.rcvSaddr, sk.num, sk.daddr, sk.dport)))
  {
    TableIsMap(h, size, history);
    PlainLatest(h, history, i);
    var sk := history[i];
    assert Lookup(h, Table(h, size, history), sk.daddr, sk.dport, sk.rcvSaddr, sk.num)
        == Get(Plain(h, history), Tuple(sk.rcvSaddr, sk.num, sk.daddr, sk.dport));
  }

  lemma {:induction false} PlainLatest(h: HashFn, history: seq<Sock>, i: nat)
    requires i < |history|
    requires forall j :: i < j < |history| ==> TupleOf(history[j]) != TupleOf(history[i])
    ensures Get(Plain(h, history), TupleOf(history[i])) == Some(Hashed(h, history[i]))
    decreases |history|
  {
    var n := |history| - 1;
    if i < n {
      PlainLatest(h, history[..n], i);
    }
  }

  /** A packet whose four-tuple was never inserted reaches no socket, whatever shares its chain. */
  lemma {:induction false} StrangerIsNotFound(
    h: HashFn, size: nat, history: seq<Sock>, saddr: nat, sport: nat, daddr: nat, hnum: nat)
    requires size > 0
    requires forall j :: 0 <= j < |history| ==> TupleOf(history[j]) != Tuple(daddr, hnum, saddr, sport)
    ensures Lookup(h, Table(h, size, history), saddr, sport, daddr, hnum) == None
  {
    TableIsMap(h, size, history);
    PlainKeys(h, history);
    assert Tuple(daddr, hnum, saddr, sport) !in Plain(h, history);
  }

  lemma {:induction false} PlainKeys(h: HashFn, history: seq<Sock>)
    ensures forall t :: t in Plain(h, history) ==> exists j :: 0 <= j < |history| && TupleOf(history[j]) == t
    decreases |history|
  {
    if history != [] {
      var n := |history| - 1;
      PlainKeys(h, history[..n]);
      forall t | t in Plain(h, history) ensures exists j :: 0 <= j < |history| && TupleOf(history[j]) == t {
        if t in Plain(h, history[..n]) {
          var j :| 0 <= j < n && TupleOf(history[..n][j]) == t;
          assert TupleOf(history[j]) == t;
        } else {
          assert TupleOf(history[n]) == t;
        }
      }
    }
  }

  /** The table in memory. */
  class EHash {
    const ehashfn: HashFn
    const ehash: array<seq<Sock>>
    ghost var contents: map<Tuple, Sock>

    ghost predicate Valid()
      reads this, ehash
    {
      ehash.Length > 0 && Agrees(ehashfn, ehash[..], contents)
    }

    constructor (ehashfn: HashFn, size: nat)
      requires size > 0
      ensures Valid() && fresh(ehash) && this.ehashfn == ehashfn && contents == map[]
    {
      this.ehashfn := ehashfn;
      ehash := new seq<Sock>[size](_ => []);
      contents := map[];
    }

    /** inet_ehash_insert without an old socket: the new one goes to the head of its chain. */
    method InsertSock(sk: Sock)
      requires Valid()
      modifies this, ehash
      ensures Valid()
      ensures contents == old(contents)[Tuple(sk.rcvSaddr, sk.num, sk.daddr, sk.dport) :=
                                          sk.(hash := ehashfn(sk.rcvSaddr, sk.num, sk.daddr, sk.dport))]
    {
      InsertAgrees(ehashfn, ehash[..], contents, sk);
      ghost var before := ehash[..];
      var s := sk.(hash := ehashfn(sk.rcvSaddr, sk.num, sk.daddr, sk.dport));
      var head := s.hash % ehash.Length;
      ehash[head] := [s] + ehash[head];
      contents := contents[TupleOf(sk) := s];
      assert ehash[..] == Insert(ehashfn, before, sk);
    }

    /** __inet_lookup_established: a walk along one chain finds what the map holds. */
    method LookupEstablished(saddr: nat, sport: nat, daddr: nat, hnum: nat) returns (r: Option<Sock>)
      requires Valid()
      ensures r == Get(contents, Tuple(daddr, hnum, saddr, sport))
    {
      var hash := ehashfn(daddr, hnum, saddr, sport);
      var chain := ehash[hash % ehash.Length];
      var node := 0;
      assert Lookup(ehashfn, ehash[..], saddr, sport, daddr, hnum) == Get(contents, Tuple(daddr, hnum, saddr, sport));
      while node < |chain|
        invariant 0 <= node <= |chain|
        invariant FirstMatch(chain, hash, saddr, sport, daddr, hnum)
               == FirstMatch(chain[node..], hash, saddr, sport, daddr, hnum)
      {
        var sk := chain[node];
        assert chain[node..][1..] == chain[node + 1..];
        if sk.hash != hash {
          node := node + 1;
          continue;
        }
        if Match(sk, saddr, sport, daddr, hnum) {
          return Some(sk);
        }
        node := node + 1;
      }
      r := None;
    }

    /** __inet_lookup: a listener is asked only when no connection or request has the four-tuple. */
    method InetLookup(listeners: map<(nat, nat), Sock>, saddr: nat, sport: nat, daddr: nat, dport: nat)
      returns (r: Option<Sock>)
      requires Valid()
      ensures var t := Tuple(daddr, dport, saddr, sport);
        r == if t in contents then Some(contents[t])
             else if (daddr, dport) in listeners then Some(listeners[(daddr, dport)])
             else None
    {
      var sk := LookupEstablished(saddr, sport, daddr, dport);
      if sk.Some? {
        return sk;
      }
      r := if (daddr, dport) in listeners then Some(listeners[(daddr, dport)]) else None;
    }
  }
}
