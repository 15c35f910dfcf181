/** Pairing of unlink entries and exits in eBPF/test.bpf.c through a bounded map and a ring buffer. */
module UnlinkTrace {
  import opened Common

  const MAX_ENTRIES: nat := 10240
  const NAME_LEN: nat := 256

  datatype Event = Event(pid: nat, ret: int, filename: seq<Byte>)

  // ---------------------------------------------------------------- strings in fixed buffers

  /** The bytes before the first zero. */
  function CStr(b: seq<Byte>): seq<Byte> {
    if b == [] || b[0] == 0 then [] else [b[0]] + CStr(b[1..])
  }

  /** What bpf_probe_read_kernel_str keeps of a string: at most 255 bytes. */
  function Cut(name: seq<Byte>): seq<Byte> {
    var s := CStr(name);
    if |s| < NAME_LEN then s else s[..NAME_LEN - 1]
  }

  lemma {:induction false} CStrNonZero(b: seq<Byte>)
    ensures forall k :: 0 <= k < |CStr(b)| ==> CStr(b)[k] != 0
    decreases |b|
  {
    if b != [] && b[0] != 0 { CStrNonZero(b[1..]); }
  }

  lemma {:induction false} CStrOfTerminated(s: seq<Byte>, rest: seq<Byte>)
    requires forall k :: 0 <= k < |s| ==> s[k] != 0
    ensures CStr(s + [0] + rest) == s
    decreases |s|
  {
    if s == [] {
      assert (s + [0] + rest)[0] == 0;
    } else {
      assert (s + [0] + rest)[1..] == s[1..] + [0] + rest;
      CStrOfTerminated(s[1..], rest);
    }
  }

  /** A string read into a buffer of NAME_LEN bytes whose other bytes were `before`. */
  function ReadStr(before: seq<Byte>, from: seq<Byte>): (r: seq<Byte>)
    requires |before| == NAME_LEN
    ensures |r| == NAME_LEN
  {
    var s := Cut(from);
    s + [0] + before[|s| + 1..]
  }

  /**
  A buffer of 256 bytes shows a string: its bytes before its first zero, at most 255 of them, and a zero behind
  them.
  */
  ghost predicate Shows(buffer: seq<Byte>, text: seq<Byte>) {
    |buffer| == 256 && exists n: nat :: n <= |text| && n <= 255 && ShowsFirst(buffer, text, n)
  }

  ghost predicate ShowsFirst(buffer: seq<Byte>, text: seq<Byte>, n: nat)
    requires n <= |text| && n < |buffer|
  {
    && buffer[..n] == text[..n] && buffer[n] == 0
    && (forall k :: 0 <= k < n ==> text[k] != 0)
    && (n == 255 || n == |text| || text[n] == 0)
  }

  lemma {:induction false} CStrIsPrefix(b: seq<Byte>)
    ensures |CStr(b)| <= |b| && CStr(b) == b[..|CStr(b)|] && (|CStr(b)| == |b| || b[|CStr(b)|] == 0)
    decreases |b|
  {
    if b != [] && b[0] != 0 {
      CStrIsPrefix(b[1..]);
      assert b == [b[0]] + b[1..];
    }
  }

  /** Reading a string shows it, whatever was in the buffer, and leaves the bytes behind it alone. */
  lemma ReadStrShows(before: seq<Byte>, from: seq<Byte>)
    requires |before| == 256
    ensures Shows(ReadStr(before, from), from)
    ensures ReadStr(before, from)[|Cut(from)| + 1..] == before[|Cut(from)| + 1..]
  {
    CStrIsPrefix(from);
    CStrNonZero(from);
    var r, n := ReadStr(before, from), |Cut(from)|;
    assert r[..n] == Cut(from) == from[..n];
    assert ShowsFirst(r, from, n);
  }

  /** The buffer now reads as the (cut) string; reading it once more changes nothing. */
  lemma ReadStrReads(before: seq<Byte>, from: seq<Byte>)
    requires |before| == NAME_LEN
    ensures CStr(ReadStr(before, from)) == Cut(from) && Cut(ReadStr(before, from)) == Cut(from)
  {
    CStrNonZero(from);
    CStrOfTerminated(Cut(from), before[|Cut(from)| + 1..]);
  }

  /** A string read from a buffer that shows it is shown again. */
  lemma ShownAgain(before: seq<Byte>, junk: seq<Byte>, from: seq<Byte>)
    requires |before| == |junk| == 256
    ensures Shows(ReadStr(junk, ReadStr(before, from)), from)
  {
    ReadStrReads(before, from);
    ReadStrShows(junk, from);
    assert ReadStr(junk, ReadStr(before, from)) == ReadStr(junk, from);
  }

  // ---------------------------------------------------------------- calls and probes

  /** The name argument: a null pointer, a pointer that cannot be read, or a string. */
  datatype Name = Null | Faulting | Text(bytes: seq<Byte>)

  /** The zeroed buffer of the entry probe after the string read; a read that fails leaves it zeroed. */
  function Buffer(name: Name): (b: seq<Byte>)
    requires name != Null
    ensures |b| == NAME_LEN
  {
    if name.Text? then ReadStr(Zeroes(NAME_LEN), name.bytes) else Zeroes(NAME_LEN)
  }

  /** A buffer shows a name: the string, or nothing if it could not be read. */
  ghost predicate ShowsName(buffer: seq<Byte>, name: Name) {
    Shows(buffer, if name.Text? then name.bytes else [])
  }

  /** The stored buffer shows the name, and so does its copy in an event, over whatever was there. */
  lemma BufferShows(name: Name, junk: seq<Byte>)
    requires name != Null && |junk| == NAME_LEN
    ensures ShowsName(Buffer(name), name) && ShowsName(ReadStr(junk, Buffer(name)), name)
  {
    var zeroes := Zeroes(NAME_LEN);
    if name.Text? {
      ReadStrShows(zeroes, name.bytes);
      ShownAgain(zeroes, junk, name.bytes);
    } else {
      assert ShowsFirst(zeroes, [], 0);
      assert ShowsFirst(ReadStr(junk, zeroes), [], 0);
    }
  }

  /** One call of do_unlinkat by a thread of process `tgid`. */
  datatype Call = Call(tgid: nat, name: Name)

  /** An event with the call whose exit emitted it and the call whose entry stored the name. */
  datatype Record = Record(event: Event, exitOf: nat, entryOf: nat)

  /**
  `calls` lists all calls in the order of their entries, `inflight` those that have not returned, `results`
  what the others returned; `owner` says which call stored each name, `log` what was emitted.
  */
  datatype State = State(
    infomap: map<nat, seq<Byte>>, calls: seq<Call>, inflight: set<nat>, results: map<nat, int>,
    owner: map<nat, nat>, log: seq<Record>)

  datatype Op = Entry(call: Call) | Exit(id: nat, ret: int, reserved: bool, junk: seq<Byte>)

  predicate Enabled(s: State, op: Op) {
    op.Exit? ==> op.id in s.inflight && op.id < |s.calls| && |op.junk| == NAME_LEN
  }

  /** A full hash map refuses a new key but still updates an old one. */
  predicate Stores(s: State, call: Call) {
    call.name != Null && (call.tgid in s.infomap || |s.infomap| < MAX_ENTRIES)
  }

  /** do_unlinkat_entry. */
  function OnEntry(s: State, call: Call): State {
    var id := |s.calls|;
    var t := s.(calls := s.calls + [call], inflight := s.inflight + {id});
    if Stores(s, call)
    then t.(infomap := s.infomap[call.tgid := Buffer(call.name)],
            owner := s.owner[call.tgid := id])
    else t
  }

  /** do_unlinkat_exit; `junk` is what the reserved ring memory held before. */
  function OnExit(s: State, id: nat, ret: int, reserved: bool, junk: seq<Byte>): State
    requires id < |s.calls| && |junk| == NAME_LEN
  {
    var pid := s.calls[id].tgid;
    var t := s.(inflight := s.inflight - {id}, results := s.results[id := ret]);
    if pid !in s.infomap then t
    else
      var u := t.(infomap := s.infomap - {pid}, owner := s.owner - {pid});
      if !reserved then u
      else
        var e := Event(pid, ret, ReadStr(junk, s.infomap[pid]));
        u.(log := s.log + [Record(e, id, if pid in s.owner then s.owner[pid] else id)])
  }

  function Apply(s: State, op: Op): State
    requires Enabled(s, op)
  {
    match op
    case Entry(call) => OnEntry(s, call)
    case Exit(id, ret, reserved, junk) => OnExit(s, id, ret, reserved, junk)
  }

  const INIT: State := State(map[], [], {}, map[], map[], [])

  ghost predicate IsRun(s: State, run: seq<Op>)
    decreases |run|
  {
    run == [] || (Enabled(s, run[0]) && IsRun(Apply(s, run[0]), run[1..]))
  }

  ghost function Last(s: State, run: seq<Op>): State
    requires IsRun(s, run)
    decreases |run|
  {
    if run == [] then s else Last(Apply(s, run[0]), run[1..])
  }

  // ---------------------------------------------------------------- every interleaving

  /** Every stored name belongs to a call that is still in flight, even with overlapping threads. */
  ghost predicate Stored(s: State) {
    Bounded(s) && Flying(s) && AllOwned(s)
  }

  ghost predicate Bounded(s: State) { s.infomap.Keys == s.owner.Keys && |s.infomap| <= MAX_ENTRIES }

  ghost predicate Flying(s: State) { forall id :: id in s.inflight ==> id < |s.calls| && id !in s.results }

  ghost predicate AllOwned(s: State) { forall t :: t in s.owner ==> Owned(s, t) }

  ghost predicate Owned(s: State, t: nat)
    requires t in s.owner
  {
    var id := s.owner[t];
    && id in s.inflight && id < |s.calls| && s.calls[id].tgid == t && s.calls[id].name != Null
    && t in s.infomap && s.infomap[t] == Buffer(s.calls[id].name)
  }

  /** An event has the process and result of the call that exited and shows the name of the call that stored. */
  ghost predicate GoodRecord(s: State, r: Record) {
    && r.exitOf < |s.calls| && r.entryOf < |s.calls| && r.exitOf in s.results
    && r.event.pid == s.calls[r.exitOf].tgid == s.calls[r.entryOf].tgid
    && r.event.ret == s.results[r.exitOf]
    && s.calls[r.entryOf].name != Null && ShowsName(r.event.filename, s.calls[r.entryOf].name)
  }

  /** Events are good; a call that emitted one has returned, and a call that named one owns nothing more. */
  ghost predicate Logged(s: State) {
    && (forall i :: 0 <= i < |s.log| ==> GoodRecord(s, s.log[i]) && s.log[i].exitOf !in s.inflight)
    && (forall i, t :: 0 <= i < |s.log| && t in s.owner ==> s.owner[t] != s.log[i].entryOf)
    && (forall i, j :: 0 <= i < j < |s.log| ==>
          s.log[i].exitOf != s.log[j].exitOf && s.log[i].entryOf != s.log[j].entryOf)
  }

  ghost predicate Inv(s: State) { Stored(s) && Logged(s) }

  lemma EntryKeepsOwned(s: State, call: Call)
    requires AllOwned(s)
    ensures AllOwned(OnEntry(s, call))
  {}

  lemma EntryKeepsBounded(s: State, call: Call)
    requires Bounded(s)
    ensures Bounded(OnEntry(s, call))
  {}

  /** A call's exit removes the entry of its process, so no entry of another call loses its call. */
  lemma ExitKeepsOwned(s: State, id: nat, ret: int, reserved: bool, junk: seq<Byte>)
    requires AllOwned(s) && Bounded(s) && Enabled(s, Exit(id, ret, reserved, junk))
    ensures AllOwned(OnExit(s, id, ret, reserved, junk))
  {}

  lemma ExitKeepsBounded(s: State, id: nat, ret: int, reserved: bool, junk: seq<Byte>)
    requires Bounded(s) && Enabled(s, Exit(id, ret, reserved, junk))
    ensures Bounded(OnExit(s, id, ret, reserved, junk))
  {}

  lemma StepKeepsFlying(s: State, op: Op)
    requires Flying(s) && Returned(s) && Enabled(s, op)
    ensures Flying(Apply(s, op)) && Returned(Apply(s, op))
  {}

  lemma StepKeepsStored(s: State, op: Op)
    requires Stored(s) && Returned(s) && Enabled(s, op)
    ensures Stored(Apply(s, op)) && Returned(Apply(s, op))
  {
    StepKeepsFlying(s, op);
    match op
    case Entry(call) =>
      EntryKeepsOwned(s, call);
      EntryKeepsBounded(s, call);
    case Exit(id, ret, reserved, junk) =>
      ExitKeepsOwned(s, id, ret, reserved, junk);
      ExitKeepsBounded(s, id, ret, reserved, junk);
  }

  /** What one exit adds to the log. */
  lemma NewRecord(s: State, id: nat, ret: int, junk: seq<Byte>)
    requires Stored(s) && Enabled(s, Exit(id, ret, true, junk)) && s.calls[id].tgid in s.infomap
    ensures var t := OnExit(s, id, ret, true, junk);
      && |t.log| == |s.log| + 1 && t.log[..|s.log|] == s.log
      && GoodRecord(t, t.log[|s.log|])
      && t.log[|s.log|].exitOf == id && t.log[|s.log|].entryOf == s.owner[s.calls[id].tgid]
  {
    var pid := s.calls[id].tgid;
    assert Owned(s, pid);
    BufferShows(s.calls[s.owner[pid]].name, junk);
  }

  lemma EntryKeepsLogged(s: State, call: Call)
    requires Logged(s) && forall id :: id in s.inflight ==> id < |s.calls|
    ensures Logged(OnEntry(s, call))
  {}

  lemma OldRecordsKept(s: State, id: nat, ret: int, reserved: bool, junk: seq<Byte>, i: nat)
    requires Logged(s) && Enabled(s, Exit(id, ret, reserved, junk)) && i < |s.log|
    ensures var t := OnExit(s, id, ret, reserved, junk);
      && i < |t.log| && t.log[i] == s.log[i] && GoodRecord(t, t.log[i])
      && t.log[i].exitOf !in t.inflight && t.log[i].exitOf != id
  {}

  /** The name just reported is owned by nobody else. */
  lemma OwnersDiffer(s: State, a: nat, b: nat)
    requires Stored(s) && a in s.owner && b in s.owner && a != b
    ensures s.owner[a] != s.owner[b]
  {
    assert Owned(s, a) && Owned(s, b);
  }

  lemma AppendKeepsLogged(s: State, t: State, r: Record, pid: nat)
    requires Logged(s) && t.log == s.log + [r]
    requires forall i :: 0 <= i < |s.log| ==>
      GoodRecord(t, s.log[i]) && s.log[i].exitOf !in t.inflight && s.log[i].exitOf != r.exitOf
    requires GoodRecord(t, r) && r.exitOf !in t.inflight && pid in s.owner && s.owner[pid] == r.entryOf
    requires forall k :: k in t.owner ==> k in s.owner && t.owner[k] == s.owner[k] != r.entryOf
    ensures Logged(t)
  {}

  lemma ReportKeepsLogged(s: State, id: nat, ret: int, junk: seq<Byte>)
    requires Inv(s) && Enabled(s, Exit(id, ret, true, junk)) && s.calls[id].tgid in s.infomap
    ensures Logged(OnExit(s, id, ret, true, junk))
  {
    var t := OnExit(s, id, ret, true, junk);
    var pid := s.calls[id].tgid;
    NewRecord(s, id, ret, junk);
    forall i | 0 <= i < |s.log|
      ensures GoodRecord(t, s.log[i]) && s.log[i].exitOf !in t.inflight && s.log[i].exitOf != id
    {
      OldRecordsKept(s, id, ret, true, junk, i);
    }
    forall k | k in t.owner ensures k in s.owner && t.owner[k] == s.owner[k] != s.owner[pid] {
      OwnersDiffer(s, k, pid);
    }
    AppendKeepsLogged(s, t, t.log[|s.log|], pid);
  }

  lemma QuietExitKeepsLogged(s: State, id: nat, ret: int, reserved: bool, junk: seq<Byte>)
    requires Logged(s) && Enabled(s, Exit(id, ret, reserved, junk))
    requires s.calls[id].tgid !in s.infomap || !reserved
    ensures Logged(OnExit(s, id, ret, reserved, junk))
  {}

  /** Results belong to calls that have entered. */
  ghost predicate Returned(s: State) { forall id :: id in s.results ==> id < |s.calls| }

  lemma ExitKeepsLogged(s: State, id: nat, ret: int, reserved: bool, junk: seq<Byte>)
    requires Inv(s) && Enabled(s, Exit(id, ret, reserved, junk))
    ensures Logged(OnExit(s, id, ret, reserved, junk))
  {
    if s.calls[id].tgid in s.infomap && reserved {
      ReportKeepsLogged(s, id, ret, junk);
    } else {
      QuietExitKeepsLogged(s, id, ret, reserved, junk);
    }
  }

  lemma StepKeepsInv(s: State, op: Op)
    requires Inv(s) && Returned(s) && Enabled(s, op)
    ensures Inv(Apply(s, op)) && Returned(Apply(s, op))
  {
    StepKeepsStored(s, op);
    match op
    case Entry(call) => EntryKeepsLogged(s, call);
    case Exit(id, ret, reserved, junk) => ExitKeepsLogged(s, id, ret, reserved, junk);
  }

  lemma {:induction false} RunKeepsInv(s: State, run: seq<Op>)
    requires Inv(s) && Returned(s) && IsRun(s, run)
    ensures Inv(Last(s, run)) && Returned(Last(s, run))
    decreases |run|
  {
    if run != [] {
      StepKeepsInv(s, run[0]);
      RunKeepsInv(Apply(s, run[0]), run[1..]);
    }
  }

  /**
  In every interleaving, with any threads and any failures: each event has the process and result of the call
  that returned and shows the name of the call that stored it; no two events come from the same call or carry
  the name of the same call; and every entry of the map belongs to a call that has not returned.
  */
  lemma EventsInEveryRun(run: seq<Op>, i: nat, j: nat, t: nat)
    requires IsRun(INIT, run)
    ensures var s := Last(INIT, run);
      && (i < |s.log| ==> GoodRecord(s, s.log[i]))
      && (i < j < |s.log| ==> s.log[i].exitOf != s.log[j].exitOf && s.log[i].entryOf != s.log[j].entryOf)
      && (t in s.infomap ==> exists id :: id in s.inflight && id < |s.calls| && s.calls[id].tgid == t)
  {
    RunKeepsInv(INIT, run);
    var s := Last(INIT, run);
    if t in s.infomap { assert Owned(s, t); }
  }

  /** An entry stores its name unless it is null or the map has 10240 other keys, and touches no other key. */
  lemma EntryStores(s: State, call: Call)
    ensures var t := OnEntry(s, call); var pid := call.tgid;
      && t.log == s.log && t.calls == s.calls + [call] && t.inflight == s.inflight + {|s.calls|}
      && t.infomap - {pid} == s.infomap - {pid}
      && (if call.name != Null && (pid in s.infomap || |s.infomap| < 10240)
          then pid in t.infomap && ShowsName(t.infomap[pid], call.name)
          else t.infomap == s.infomap)
  {
    if call.name != Null { BufferShows(call.name, Zeroes(NAME_LEN)); }
  }

  /** An exit emits exactly when a name is stored for its process and the ring has room; it clears the entry. */
  lemma ExitEmits(run: seq<Op>, id: nat, ret: int, reserved: bool, junk: seq<Byte>)
    requires IsRun(INIT, run) && Enabled(Last(INIT, run), Exit(id, ret, reserved, junk))
    ensures var s := Last(INIT, run); var t := OnExit(s, id, ret, reserved, junk);
      && s.calls[id].tgid !in t.infomap
      && t.inflight == s.inflight - {id} && t.calls == s.calls && t.infomap == s.infomap - {s.calls[id].tgid}
      && (if s.calls[id].tgid in s.infomap && reserved
          then |t.log| == |s.log| + 1 && t.log[..|s.log|] == s.log &&
               GoodRecord(t, t.log[|s.log|]) && t.log[|s.log|].exitOf == id &&
               t.log[|s.log|].event.pid == s.calls[id].tgid && t.log[|s.log|].event.ret == ret
          else t.log == s.log)
  {
    RunKeepsInv(INIT, run);
    var s := Last(INIT, run);
    if s.calls[id].tgid in s.infomap && reserved { NewRecord(s, id, ret, junk); }
  }

  // ---------------------------------------------------------------- one call per process

  /** No call starts while another call of its process is in flight. */
  ghost predicate Alone(s: State, op: Op) {
    op.Entry? ==> forall id :: id in s.inflight && id < |s.calls| ==> s.calls[id].tgid != op.call.tgid
  }

  ghost predicate NoOverlap(s: State, run: seq<Op>)
    requires IsRun(s, run)
    decreases |run|
  {
    run == [] || (Alone(s, run[0]) && NoOverlap(Apply(s, run[0]), run[1..]))
  }

  ghost predicate OnePerProcess(s: State) {
    forall a, b ::
      a in s.inflight && b in s.inflight && a < |s.calls| && b < |s.calls| && s.calls[a].tgid == s.calls[b].tgid
      ==> a == b
  }

  ghost predicate Paired(log: seq<Record>) {
    forall i :: 0 <= i < |log| ==> log[i].exitOf == log[i].entryOf
  }

  /** The stored name of a process is that of its only call in flight. */
  lemma OwnerIsCaller(s: State, id: nat)
    requires Stored(s) && OnePerProcess(s) && id in s.inflight && id < |s.calls| && s.calls[id].tgid in s.owner
    ensures s.owner[s.calls[id].tgid] == id
  {}

  lemma OnePerProcessStep(s: State, op: Op)
    requires OnePerProcess(s) && Enabled(s, op) && Alone(s, op)
    requires forall id :: id in s.inflight ==> id < |s.calls|
    ensures OnePerProcess(Apply(s, op))
  {}

  lemma PairedStep(s: State, op: Op)
    requires Stored(s) && OnePerProcess(s) && Paired(s.log) && Enabled(s, op)
    ensures Paired(Apply(s, op).log)
  {
    if op.Exit? && s.calls[op.id].tgid in s.owner {
      OwnerIsCaller(s, op.id);
    }
  }

  lemma {:induction false} PairedRun(s: State, run: seq<Op>)
    requires Inv(s) && Returned(s) && OnePerProcess(s) && Paired(s.log)
    requires IsRun(s, run) && NoOverlap(s, run)
    ensures Paired(Last(s, run).log)
    decreases |run|
  {
    if run != [] {
      StepKeepsInv(s, run[0]);
      OnePerProcessStep(s, run[0]);
      PairedStep(s, run[0]);
      PairedRun(Apply(s, run[0]), run[1..]);
    }
  }

  /** With one call in flight per process, every event is that of its own call, whatever else fails. */
  lemma EventsArePaired(run: seq<Op>, i: nat)
    requires IsRun(INIT, run) && NoOverlap(INIT, run) && i < |Last(INIT, run).log|
    ensures var s := Last(INIT, run); var r := s.log[i];
      && r.exitOf < |s.calls| && r.exitOf in s.results
      && r.event.pid == s.calls[r.exitOf].tgid && r.event.ret == s.results[r.exitOf]
      && s.calls[r.exitOf].name != Null && ShowsName(r.event.filename, s.calls[r.exitOf].name)
  {
    PairedRun(INIT, run);
    RunKeepsInv(INIT, run);
    assert GoodRecord(Last(INIT, run), Last(INIT, run).log[i]);
  }

  /** Of a string and what follows its zero, an event shows the first 255 bytes at most and a zero behind them. */
  lemma ShowsTerminated(buffer: seq<Byte>, text: seq<Byte>, rest: seq<Byte>)
    requires Shows(buffer, text + [0] + rest) && forall k :: 0 <= k < |text| ==> text[k] != 0
    ensures var n := if |text| < 255 then |text| else 255;
      |buffer| == 256 && buffer[..n] == text[..n] && buffer[n] == 0
  {
    var whole := text + [0] + rest;
    var n: nat :| n <= |whole| && n <= 255 && ShowsFirst(buffer, whole, n);
    assert whole[|text|] == 0;
    assert n < |text| ==> whole[n] == text[n];
    assert whole[..n] == text[..n];
  }

  /** With one call in flight per process, an event holds the first 255 bytes at most of the very name it reports. */
  lemma EventHoldsName(run: seq<Op>, i: nat, text: seq<Byte>, rest: seq<Byte>)
    requires IsRun(INIT, run) && NoOverlap(INIT, run) && i < |Last(INIT, run).log|
    requires forall k :: 0 <= k < |text| ==> text[k] != 0
    ensures var s := Last(INIT, run); var r := s.log[i]; var n := if |text| < 255 then |text| else 255;
      && r.exitOf < |s.calls|
      && (s.calls[r.exitOf].name == Text(text + [0] + rest) ==>
            |r.event.filename| == 256 && r.event.filename[..n] == text[..n] && r.event.filename[n] == 0)
  {
    EventsArePaired(run, i);
    var r := Last(INIT, run).log[i];
    if Last(INIT, run).calls[r.exitOf].name == Text(text + [0] + rest) {
      ShowsTerminated(r.event.filename, text, rest);
    }
  }

  // ---------------------------------------------------------------- overlapping threads

  /** Every name is stored, and every event finds room. */
  ghost predicate NothingFails(s: State, op: Op) {
    if op.Entry? then Stores(s, op.call) else op.reserved
  }

  ghost predicate FaultFree(s: State, run: seq<Op>)
    requires IsRun(s, run)
    decreases |run|
  {
    run == [] || (NothingFails(s, run[0]) && FaultFree(Apply(s, run[0]), run[1..]))
  }

  /** An exit emits an event, and with the name of its own call. */
  ghost predicate Reports(s: State, op: Op)
    requires Enabled(s, op)
  {
    op.Exit? ==>
      var t := Apply(s, op);
      |t.log| == |s.log| + 1 && t.log[|s.log|].exitOf == t.log[|s.log|].entryOf
  }

  ghost predicate AllReported(s: State, run: seq<Op>)
    requires IsRun(s, run)
    decreases |run|
  {
    run == [] || (Reports(s, run[0]) && AllReported(Apply(s, run[0]), run[1..]))
  }

  /** All calls in flight are the ones that stored last for their process. */
  ghost predicate AllOwners(s: State) {
    forall id :: id in s.inflight && id < |s.calls| ==>
      s.calls[id].tgid in s.owner && s.owner[s.calls[id].tgid] == id
  }

  ghost predicate Lost(s: State, id: nat) {
    id in s.inflight && id < |s.calls| && (s.calls[id].tgid in s.owner ==> s.owner[s.calls[id].tgid] != id)
  }

  lemma LostStep(s: State, op: Op, id: nat)
    requires Bounded(s) && Enabled(s, op) && Lost(s, id)
    ensures op.Exit? && op.id == id ==> !Reports(s, op)
    ensures !(op.Exit? && op.id == id) ==> Lost(Apply(s, op), id)
  {}

  /** At the exit of a call that has lost its entry the report is another call's or there is none. */
  lemma {:induction false} LostIsMisreported(s: State, run: seq<Op>, id: nat)
    requires Inv(s) && Returned(s) && IsRun(s, run) && Lost(s, id) && id !in Last(s, run).inflight
    ensures !AllReported(s, run)
    decreases |run|
  {
    LostStep(s, run[0], id);
    if !(run[0].Exit? && run[0].id == id) {
      StepKeepsInv(s, run[0]);
      LostIsMisreported(Apply(s, run[0]), run[1..], id);
    }
  }

  /** The map holds no name of call `id`. */
  ghost predicate Forgotten(s: State, id: nat) {
    id < |s.calls| && forall t :: t in s.owner ==> s.owner[t] != id
  }

  lemma ForgottenStep(s: State, op: Op, id: nat)
    requires Bounded(s) && Enabled(s, op) && Forgotten(s, id)
    ensures var t := Apply(s, op);
      && Forgotten(t, id) && s.log <= t.log
      && forall i :: |s.log| <= i < |t.log| ==> t.log[i].entryOf != id
  {}

  lemma {:induction false} ForgottenRun(s: State, run: seq<Op>, id: nat)
    requires Inv(s) && Returned(s) && IsRun(s, run) && Forgotten(s, id)
    ensures var t := Last(s, run);
      s.log <= t.log && forall i :: |s.log| <= i < |t.log| ==> t.log[i].entryOf != id
    decreases |run|
  {
    if run != [] {
      StepKeepsInv(s, run[0]);
      ForgottenStep(s, run[0], id);
      ForgottenRun(Apply(s, run[0]), run[1..], id);
    }
  }

  /**
  A call that has lost its entry never gets it back, in no continuation: no event emitted after the loss
  shows its name, and the event of its own exit, if there is one, shows the name of another call.
  */
  lemma LostForGood(s: State, run: seq<Op>, id: nat, i: nat)
    requires Inv(s) && Returned(s) && IsRun(s, run) && Lost(s, id)
    ensures s.log <= Last(s, run).log
    ensures |s.log| <= i < |Last(s, run).log| ==> Last(s, run).log[i].entryOf != id
    ensures i < |Last(s, run).log| && Last(s, run).log[i].exitOf == id ==> Last(s, run).log[i].entryOf != id
  {
    forall t | t in s.owner ensures s.owner[t] != id {
      assert Owned(s, t);
    }
    ForgottenRun(s, run, id);
    if i < |s.log| { assert s.log[i].exitOf !in s.inflight; }
  }

  lemma AloneEntry(s: State, call: Call)
    requires AllOwners(s) && Flying(s) && Stores(s, call) && Alone(s, Entry(call))
    ensures AllOwners(OnEntry(s, call))
  {}

  lemma AloneExit(s: State, id: nat, ret: int, junk: seq<Byte>)
    requires AllOwners(s) && Bounded(s) && Enabled(s, Exit(id, ret, true, junk))
    ensures Reports(s, Exit(id, ret, true, junk)) && AllOwners(OnExit(s, id, ret, true, junk))
  {}

  lemma AloneStep(s: State, op: Op)
    requires Stored(s) && AllOwners(s) && Enabled(s, op) && NothingFails(s, op) && Alone(s, op)
    ensures Reports(s, op) && AllOwners(Apply(s, op))
  {
    match op
    case Entry(call) => AloneEntry(s, call);
    case Exit(id, ret, reserved, junk) => AloneExit(s, id, ret, junk);
  }

  lemma OverlapStep(s: State, op: Op) returns (id: nat)
    requires Stored(s) && Enabled(s, op) && NothingFails(s, op) && !Alone(s, op)
    ensures Lost(Apply(s, op), id)
  {
    id :| id in s.inflight && id < |s.calls| && s.calls[id].tgid == op.call.tgid;
  }

  /**
  When nothing else goes wrong and all calls have ended, every call is reported with its own name if and
  only if no two calls of one process overlapped: the map is keyed by process, not by thread.
  */
  lemma {:induction false} ReportedIffAlone(s: State, run: seq<Op>)
    requires Inv(s) && Returned(s) && AllOwners(s) && IsRun(s, run) && FaultFree(s, run)
    requires Last(s, run).inflight == {}
    ensures AllReported(s, run) <==> NoOverlap(s, run)
    decreases |run|
  {
    if run != [] {
      StepKeepsInv(s, run[0]);
      if Alone(s, run[0]) {
        AloneStep(s, run[0]);
        ReportedIffAlone(Apply(s, run[0]), run[1..]);
      } else {
        var id := OverlapStep(s, run[0]);
        LostIsMisreported(Apply(s, run[0]), run[1..], id);
      }
    }
  }

  /** Two threads of process 7: the first exit reports the second thread's file, the second exit nothing. */
  lemma TwoThreadsSwapNames(junk: seq<Byte>)
    requires |junk| == NAME_LEN
    ensures var s := OnEntry(OnEntry(INIT, Call(7, Text([97]))), Call(7, Text([98])));
      && s.inflight == {0, 1} && |s.calls| == 2
      && var t := OnExit(s, 0, 0, true, junk);
      && |t.log| == 1 && t.log[0].exitOf == 0 && t.log[0].entryOf == 1
      && t.log[0].event.pid == 7 && t.log[0].event.filename[..2] == [98, 0]
      && 1 in t.inflight && OnExit(t, 1, 0, true, junk).log == t.log
  {
    var b: seq<Byte> := [98];
    BufferShows(Text(b), junk);
    var shown := ReadStr(junk, Buffer(Text(b)));
    var n: nat :| n <= |b| && n <= 255 && ShowsFirst(shown, b, n);
    assert n == 1 && shown[..1] == b[..1];
    assert shown[..2] == shown[..1] + [shown[1]];
  }

  // ---------------------------------------------------------------- the probes

  /** The two maps of the program. */
  class Tracer {
    var infomap: map<nat, seq<Byte>>
    var rb: seq<Event>

    constructor ()
      ensures infomap == map[] && rb == []
    {
      infomap, rb := map[], [];
    }

    /** bpf_map_update_elem with BPF_ANY. */
    method UpdateElem(key: nat, value: seq<Byte>)
      modifies this`infomap
      ensures infomap == if key in old(infomap) || |old(infomap)| < 10240
                         then old(infomap)[key := value] else old(infomap)
    {
      if key in infomap || |infomap| < MAX_ENTRIES {
        infomap := infomap[key := value];
      }
    }

    method DoUnlinkatEntry(pid: nat, name: Name)
      modifies this
      ensures rb == old(rb) && infomap - {pid} == old(infomap) - {pid}
      ensures if name != Null && (pid in old(infomap) || |old(infomap)| < 10240)
              then pid in infomap && ShowsName(infomap[pid], name) else infomap == old(infomap)
      ensures forall s: State :: s.infomap == old(infomap) ==> OnEntry(s, Call(pid, name)).infomap == infomap
    {
      var filename := Zeroes(NAME_LEN);
      if name.Null? {
        return;
      }
      BufferShows(name, filename);
      if name.Text? {
        filename := ReadStr(filename, name.bytes);
      }
      UpdateElem(pid, filename);
    }

    method DoUnlinkatExit(pid: nat, error: int, reserved: bool, junk: seq<Byte>)
      requires |junk| == 256
      modifies this
      ensures infomap == old(infomap) - {pid}
      ensures pid in old(infomap) && reserved ==>
        |rb| == |old(rb)| + 1 && rb[|old(rb)|].pid == pid && rb[|old(rb)|].ret == error &&
        Shows(rb[|old(rb)|].filename, old(infomap)[pid])
      ensures rb == if pid in old(infomap) && reserved
                    then old(rb) + [Event(pid, error, ReadStr(junk, old(infomap)[pid]))] else old(rb)
      ensures forall s: State, id ::
        s.infomap == old(infomap) && 0 <= id < |s.calls| && s.calls[id].tgid == pid ==>
          var t := OnExit(s, id, error, reserved, junk);
          t.infomap == infomap && |t.log| - |s.log| == |rb| - |old(rb)| &&
          (|rb| > |old(rb)| ==> t.log[|s.log|].event == rb[|old(rb)|])
    {
      if pid !in infomap {
        assert infomap == infomap - {pid};
        return;
      }
      var cached := infomap[pid];
      if !reserved {
        infomap := infomap - {pid};
        return;
      }
      var e := Event(pid, error, junk);
      e := e.(filename := ReadStr(e.filename, cached));
      ReadStrShows(junk, cached);
      rb := rb + [e];
      infomap := infomap - {pid};
    }
  }
}
