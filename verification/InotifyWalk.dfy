/** The walk over a buffer of variable-length inotify records in inotify/inotify.c. */
module InotifyWalk {
  import opened Common

  const U32: int := 0x1_0000_0000
  const HEADER: nat := 16

  /** struct inotify_event with the name bytes (padding included) behind it. */
  datatype Record = Record(wd: nat, mask: nat, cookie: nat, name: seq<Byte>)

  predicate Fits(r: Record) { r.wd < U32 && r.mask < U32 && r.cookie < U32 && |r.name| < U32 }

  /** `n` little-endian bytes, and the number they stand for. */
  function LeBytes(x: nat, n: nat): (b: seq<Byte>)
    ensures |b| == n
  {
    if n == 0 then [] else [x % 256] + LeBytes(x / 256, n - 1)
  }

  function LeValue(b: seq<Byte>): nat {
    if b == [] then 0 else b[0] as int + 256 * LeValue(b[1..])
  }

  function Power(n: nat): nat { if n == 0 then 1 else 256 * Power(n - 1) }

  lemma {:induction false} LeValueBytes(x: nat, n: nat)
    requires x < Power(n)
    ensures LeValue(LeBytes(x, n)) == x
    decreases n
  {
    if n > 0 { LeValueBytes(x / 256, n - 1); }
  }

  lemma DigitAndRest(digit: Byte, rest: nat)
    ensures (digit as int + 256 * rest) % 256 == digit && (digit as int + 256 * rest) / 256 == rest
  {}

  lemma {:induction false} LeBytesValue(b: seq<Byte>)
    ensures LeValue(b) < Power(|b|) && LeBytes(LeValue(b), |b|) == b
    decreases |b|
  {
    if b != [] {
      LeBytesValue(b[1..]);
      DigitAndRest(b[0], LeValue(b[1..]));
      assert b == [b[0]] + b[1..];
    }
  }

  function Le32(x: nat): (b: seq<Byte>)
    ensures |b| == 4
  {
    LeBytes(x, 4)
  }

  function Read32(b: seq<Byte>, i: nat): nat
    requires i + 4 <= |b|
  {
    LeValue(b[i..i + 4])
  }

  lemma FourBytes()
    ensures Power(4) == U32
  {}

  function EncodeOne(r: Record): (b: seq<Byte>)
    requires Fits(r)
    ensures |b| == HEADER + |r.name|
  {
    Le32(r.wd) + Le32(r.mask) + Le32(r.cookie) + Le32(|r.name|) + r.name
  }

  ghost predicate AllFit(rs: seq<Record>) { forall i :: 0 <= i < |rs| ==> Fits(rs[i]) }

  function Encode(rs: seq<Record>): seq<Byte>
    requires forall i :: 0 <= i < |rs| ==> Fits(rs[i])
  {
    if rs == [] then [] else EncodeOne(rs[0]) + Encode(rs[1..])
  }

  /** The length of the record at the start of `b`. */
  function Size(b: seq<Byte>): nat
    requires |b| >= HEADER
  {
    HEADER + Read32(b, 12)
  }

  /** The kernel returns whole records only. */
  predicate WholeRecords(b: seq<Byte>)
    decreases |b|
  {
    b == [] || (|b| >= HEADER && Size(b) <= |b| && WholeRecords(b[Size(b)..]))
  }

  function DecodeOne(b: seq<Byte>): Record
    requires |b| >= HEADER && Size(b) <= |b|
  {
    Record(Read32(b, 0), Read32(b, 4), Read32(b, 8), b[HEADER..Size(b)])
  }

  function Decode(b: seq<Byte>): seq<Record>
    requires WholeRecords(b)
    decreases |b|
  {
    if b == [] then [] else [DecodeOne(b)] + Decode(b[Size(b)..])
  }

  /** Where the fields of an encoded record lie. */
  lemma FieldSlices(r: Record, rest: seq<Byte>)
    requires Fits(r)
    ensures var b := EncodeOne(r) + rest;
      && b[0..4] == Le32(r.wd) && b[4..8] == Le32(r.mask) && b[8..12] == Le32(r.cookie)
      && b[12..16] == Le32(|r.name|) && b[16..16 + |r.name|] == r.name && b[16 + |r.name|..] == rest
  {}

  lemma DecodeEncodeOne(r: Record, rest: seq<Byte>)
    requires Fits(r)
    ensures var b := EncodeOne(r) + rest;
      && |b| >= HEADER && Size(b) == HEADER + |r.name| <= |b|
      && DecodeOne(b) == r && b[Size(b)..] == rest
  {
    FieldSlices(r, rest);
    FourBytes();
    LeValueBytes(r.wd, 4);
    LeValueBytes(r.mask, 4);
    LeValueBytes(r.cookie, 4);
    LeValueBytes(|r.name|, 4);
  }

  /** Walking the concatenation of any records yields exactly those records in order. */
  lemma {:induction false} DecodeEncode(rs: seq<Record>)
    requires AllFit(rs)
    ensures WholeRecords(Encode(rs)) && Decode(Encode(rs)) == rs
    decreases |rs|
  {
    if rs != [] {
      DecodeEncode(rs[1..]);
      DecodeEncodeOne(rs[0], Encode(rs[1..]));
    }
  }

  lemma FieldFits(b: seq<Byte>, i: nat)
    requires i + 4 <= |b|
    ensures Read32(b, i) < U32 && Le32(Read32(b, i)) == b[i..i + 4]
  {
    FourBytes();
    LeBytesValue(b[i..i + 4]);
  }

  lemma Rejoin(b: seq<Byte>, n: nat)
    requires HEADER <= n <= |b|
    ensures b[0..4] + b[4..8] + b[8..12] + b[12..16] + b[HEADER..n] == b[..n]
  {}

  lemma EncodeDecodeOne(b: seq<Byte>)
    requires |b| >= HEADER && Size(b) <= |b|
    ensures Fits(DecodeOne(b)) && EncodeOne(DecodeOne(b)) == b[..Size(b)]
  {
    FieldFits(b, 0);
    FieldFits(b, 4);
    FieldFits(b, 8);
    FieldFits(b, 12);
    Rejoin(b, Size(b));
  }

  /** A buffer holds whole records exactly when it is the encoding of some records. */
  lemma {:induction false} EncodeDecode(b: seq<Byte>)
    requires WholeRecords(b)
    ensures AllFit(Decode(b)) && Encode(Decode(b)) == b
    decreases |b|
  {
    if b != [] {
      EncodeDecodeOne(b);
      EncodeDecode(b[Size(b)..]);
      assert Decode(b)[1..] == Decode(b[Size(b)..]);
      assert b[..Size(b)] + b[Size(b)..] == b;
    }
  }

  lemma SliceOfSlice(b: seq<Byte>, lo: nat, hi: nat, i: nat, j: nat)
    requires lo <= hi <= |b| && i <= j && lo + j <= hi
    ensures b[lo..hi][i..j] == b[lo + i..lo + j]
  {
    forall k | 0 <= k < j - i ensures b[lo..hi][i..j][k] == b[lo + i..lo + j][k] {
      assert b[lo..hi][i + k] == b[lo + (i + k)];
    }
  }

  /** The event structure laid over the buffer at `offset`. */
  function EventAt(events: seq<Byte>, offset: nat): Record
    requires offset + HEADER <= |events| && offset + HEADER + Read32(events, offset + 12) <= |events|
  {
    Record(Read32(events, offset), Read32(events, offset + 4), Read32(events, offset + 8),
           events[offset + HEADER..offset + HEADER + Read32(events, offset + 12)])
  }

  /** The four bytes at `i` as a little-endian number. */
  ghost predicate Word(b: seq<Byte>, i: nat, x: nat) {
    && i + 4 <= |b|
    && x == b[i] as nat + 0x100 * b[i + 1] as nat + 0x1_0000 * b[i + 2] as nat + 0x100_0000 * b[i + 3] as nat
  }

  lemma ReadIsWord(b: seq<Byte>, i: nat)
    requires i + 4 <= |b|
    ensures Word(b, i, Read32(b, i))
  {
    var w0 := b[i..i + 4];
    var w1 := w0[1..];
    var w2 := w1[1..];
    var w3 := w2[1..];
    assert LeValue(w0) == b[i] as nat + 256 * LeValue(w1);
    assert LeValue(w1) == b[i + 1] as nat + 256 * LeValue(w2);
    assert LeValue(w2) == b[i + 2] as nat + 256 * LeValue(w3);
    assert LeValue(w3) == b[i + 3] as nat + 256 * LeValue(w3[1..]) && w3[1..] == [];
  }

  /** Record `e` lies at `offset`: three words, the length of the name, and the name. */
  ghost predicate LiesAt(events: seq<Byte>, offset: nat, e: Record) {
    && Word(events, offset, e.wd) && Word(events, offset + 4, e.mask) && Word(events, offset + 8, e.cookie)
    && Word(events, offset + 12, |e.name|)
    && offset + 16 + |e.name| <= |events| && events[offset + 16..offset + 16 + |e.name|] == e.name
  }

  lemma EventLiesAt(events: seq<Byte>, offset: nat)
    requires offset + HEADER <= |events| && offset + HEADER + Read32(events, offset + 12) <= |events|
    ensures LiesAt(events, offset, EventAt(events, offset))
  {
    ReadIsWord(events, offset);
    ReadIsWord(events, offset + 4);
    ReadIsWord(events, offset + 8);
    ReadIsWord(events, offset + 12);
  }

  lemma ReadShift(b: seq<Byte>, lo: nat, hi: nat, i: nat)
    requires lo + i + 4 <= hi <= |b|
    ensures Read32(b[lo..hi], i) == Read32(b, lo + i)
  {
    SliceOfSlice(b, lo, hi, i, i + 4);
  }

  lemma FirstEvent(events: seq<Byte>, offset: nat, nbytes: nat)
    requires offset + HEADER <= nbytes <= |events| && Size(events[offset..nbytes]) <= nbytes - offset
    ensures Size(events[offset..nbytes]) == HEADER + Read32(events, offset + 12)
    ensures EventAt(events, offset) == DecodeOne(events[offset..nbytes])
  {
    ReadShift(events, offset, nbytes, 0);
    ReadShift(events, offset, nbytes, 4);
    ReadShift(events, offset, nbytes, 8);
    ReadShift(events, offset, nbytes, 12);
    SliceOfSlice(events, offset, nbytes, HEADER, Size(events[offset..nbytes]));
  }

  /** Where record `i` starts if the records lie one behind the other. */
  function StartOf(rs: seq<Record>, i: nat): nat
    requires i <= |rs|
  {
    if i == 0 then 0 else StartOf(rs, i - 1) + 16 + |rs[i - 1].name|
  }

  /** The bytes from the start of record `i` on hold the records from `i` on. */
  lemma {:induction false} SuffixDecodes(b: seq<Byte>, i: nat)
    requires WholeRecords(b) && i <= |Decode(b)|
    ensures var at := StartOf(Decode(b), i);
      at <= |b| && WholeRecords(b[at..]) && Decode(b[at..]) == Decode(b)[i..]
    decreases i
  {
    var rs := Decode(b);
    if i == 0 {
      assert b[0..] == b && rs[0..] == rs;
    } else {
      SuffixDecodes(b, i - 1);
      var before := StartOf(rs, i - 1);
      var rest := b[before..];
      assert Decode(rest)[0] == rs[i - 1] && Decode(rest)[1..] == rs[i..];
      assert Decode(rest) == [DecodeOne(rest)] + Decode(rest[Size(rest)..]);
      assert rest[Size(rest)..] == b[before + Size(rest)..];
    }
  }

  /** After `i` records the loop has more to do exactly if there are more, and the structure it sees is the next. */
  lemma WalkStep(events: seq<Byte>, nbytes: nat, i: nat)
    requires nbytes <= |events| && WholeRecords(events[..nbytes]) && i <= |Decode(events[..nbytes])|
    ensures var rs := Decode(events[..nbytes]); var at := StartOf(rs, i);
      && at <= nbytes && (at < nbytes <==> i < |rs|)
      && (i < |rs| ==>
            && at + HEADER <= nbytes && at + HEADER + Read32(events, at + 12) <= nbytes
            && EventAt(events, at) == rs[i])
  {
    var b := events[..nbytes];
    var rs := Decode(b);
    var at := StartOf(rs, i);
    SuffixDecodes(b, i);
    assert b[at..] == events[at..nbytes];
    if i < |rs| {
      assert rs[i] == Decode(b[at..])[0];
      FirstEvent(events, at, nbytes);
    }
  }

  /** The records lie in the buffer one behind the other and fill its first `nbytes` bytes. */
  ghost predicate Fill(events: seq<Byte>, rs: seq<Record>, nbytes: nat) {
    && StartOf(rs, |rs|) == nbytes
    && forall i :: 0 <= i < |rs| ==> LiesAt(events, StartOf(rs, i), rs[i])
  }

  /** Read off the bytes: which records a buffer holds and where each of them lies. */
  lemma RecordsFill(events: seq<Byte>, nbytes: nat)
    requires nbytes <= |events| && WholeRecords(events[..nbytes])
    ensures Fill(events, Decode(events[..nbytes]), nbytes)
  {
    var rs := Decode(events[..nbytes]);
    WalkStep(events, nbytes, |rs|);
    forall i | 0 <= i < |rs| ensures LiesAt(events, StartOf(rs, i), rs[i]) {
      WalkStep(events, nbytes, i);
      EventLiesAt(events, StartOf(rs, i));
    }
  }

  /** Line 59: the structure at the current offset is the next record. */
  method NextEvent(events: seq<Byte>, nbytes: nat, offset: nat, ghost i: nat) returns (event: Record)
    requires nbytes <= |events| && WholeRecords(events[..nbytes]) && i < |Decode(events[..nbytes])|
    requires offset == StartOf(Decode(events[..nbytes]), i)
    ensures event == Decode(events[..nbytes])[i]
  {
    WalkStep(events, nbytes, i);
    event := EventAt(events, offset);
  }

  lemma WalkEnds(events: seq<Byte>, nbytes: nat, i: nat)
    requires nbytes <= |events| && WholeRecords(events[..nbytes]) && i <= |Decode(events[..nbytes])|
    ensures var rs := Decode(events[..nbytes]);
      StartOf(rs, i) <= nbytes && (StartOf(rs, i) < nbytes <==> i < |rs|)
  {
    WalkStep(events, nbytes, i);
  }

  /** Lines 58-63: the loop stops exactly at nbytes, having visited the records of the buffer in order. */
  method Walk(events: seq<Byte>, nbytes: nat) returns (visited: seq<Record>, offset: nat)
    requires nbytes <= |events| && WholeRecords(events[..nbytes])
    ensures offset == nbytes && visited == Decode(events[..nbytes]) && Fill(events, visited, nbytes)
  {
    offset, visited := 0, [];
    ghost var all := Decode(events[..nbytes]);
    WalkEnds(events, nbytes, 0);
    while offset < nbytes
      invariant |visited| <= |all| && visited == all[..|visited|]
      invariant offset == StartOf(all, |visited|) <= nbytes && (offset < nbytes <==> |visited| < |all|)
      decreases nbytes - offset
    {
      var event := NextEvent(events, nbytes, offset, |visited|);
      visited := visited + [event];
      offset := offset + HEADER + |event.name|;
      WalkEnds(events, nbytes, |visited|);
    }
    RecordsFill(events, nbytes);
  }
}
