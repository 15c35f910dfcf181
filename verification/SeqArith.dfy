/** Wrap-around comparison of 32-bit sequence numbers, section 3.4 of RFC 9293. */
module SeqArith {

  const MOD: int := 0x1_0000_0000

  type SeqNo = x: int | 0 <= x < MOD

  function Succ(x: SeqNo): SeqNo { (x + 1) % MOD }
  function Pred(x: SeqNo): SeqNo { (x - 1) % MOD }

  lemma PredSucc(x: SeqNo)
    ensures Pred(Succ(x)) == x && Succ(Pred(x)) == x
  {}

  /** before: the signed 32-bit difference is negative. */
  predicate Before(a: SeqNo, b: SeqNo) { (a - b) % MOD >= MOD / 2 }

  predicate After(a: SeqNo, b: SeqNo) { Before(b, a) }

  /** The acknowledgement test of SYN-SENT: after snd_una and not after snd_nxt. */
  predicate AckAcceptable(sndUna: SeqNo, sndNxt: SeqNo, ack: SeqNo) {
    After(ack, sndUna) && !After(ack, sndNxt)
  }

  /** For any window up to 2^31 the test accepts exactly the outstanding numbers, across the wrap. */
  lemma AckWindow(sndUna: SeqNo, window: nat, ack: SeqNo)
    requires window <= 0x8000_0000
    ensures AckAcceptable(sndUna, (sndUna + window) % 0x1_0000_0000, ack) <==>
      1 <= (ack - sndUna) % 0x1_0000_0000 <= window
  {}

  /** With only a SYN outstanding the one acceptable acknowledgement is ISN + 1, for every ISN. */
  lemma SynAckAcceptable(isn: SeqNo, ack: SeqNo)
    ensures AckAcceptable(isn, Succ(isn), ack) <==> ack == Succ(isn)
    ensures Succ(isn) == if isn == 0xFFFF_FFFF then 0 else isn + 1
  {}

  /** Beyond 2^31 outstanding numbers the signed comparison rejects even the first of them. */
  lemma WiderWindowFails(sndUna: SeqNo, window: nat)
    requires 0x8000_0000 < window < 0x1_0000_0000
    ensures !AckAcceptable(sndUna, (sndUna + window) % 0x1_0000_0000, Succ(sndUna))
  {}
}
