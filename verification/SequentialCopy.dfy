/** The plain read/write loop of io_uring/normal.c, and its agreement with the asynchronous engine. */
module SequentialCopy {
  import opened Common
  import CopyModel
  import opened CopyRuns
  import opened CopyFile

  const BUF_SIZE: nat := 4096

  /** One fwrite: the bytes asked for and the bytes written. */
  datatype Write = Write(asked: nat, done: nat)

  ghost predicate SomeError(errors: seq<bool>) { exists i :: 0 <= i < |errors| && errors[i] }

  ghost predicate AllWhole(writes: seq<Write>) {
    forall i :: 0 <= i < |writes| ==> writes[i].done == writes[i].asked
  }

  /** The two streams of the program; `ferror` is the error indicator of the source. */
  class Streams {
    const src: seq<Byte>
    var pos: nat
    var ferror: bool
    var dest: seq<Byte>

    // Whether each fread met an error, and what each fwrite did
    ghost var errors: seq<bool>
    ghost var writes: seq<Write>

    constructor (src: seq<Byte>)
      ensures this.src == src && pos == 0 && !ferror && dest == [] && errors == [] && writes == []
    {
      this.src := src;
      pos, ferror, dest := 0, false, [];
      errors, writes := [], [];
    }

    /** fread: a full buffer unless the file ends or an error cuts it short. */
    method Fread() returns (data: seq<Byte>)
      requires pos <= |src|
      modifies this`pos, this`ferror, this`errors
      ensures |errors| == |old(errors)| + 1 && errors[..|old(errors)|] == old(errors)
      ensures ferror == (old(ferror) || errors[|old(errors)|])
      ensures pos == old(pos) + |data| <= |src| && data == src[old(pos)..pos] && |data| <= 4096
      ensures !errors[|old(errors)|] ==>
        |data| == if |src| - old(pos) < 4096 then |src| - old(pos) else 4096
      ensures errors[|old(errors)|] ==> |data| < 4096
    {
      var n := if |src| - pos < BUF_SIZE then |src| - pos else BUF_SIZE;
      var got :| 0 <= got <= n;
      var error: bool := *;
      error := got < n || (got < BUF_SIZE && error);
      data := src[pos..pos + got];
      pos, ferror := pos + got, ferror || error;
      errors := errors + [error];
    }

    /** fwrite: all of the data, or less when it fails. */
    method Fwrite(data: seq<Byte>) returns (n: nat)
      modifies this`dest, this`writes
      ensures n <= |data| && dest == old(dest) + data[..n]
      ensures writes == old(writes) + [Write(|data|, n)]
    {
      n :| 0 <= n <= |data|;
      dest := dest + data[..n];
      writes := writes + [Write(|data|, n)];
    }

    /**
    Lines 28-53: it succeeds if and only if no read met an error and no write was short; success means an
    exact copy, failure leaves a prefix of the source.
    */
    method Copy() returns (ok: bool)
      requires pos == 0 && !ferror && dest == [] && errors == [] && writes == []
      modifies this
      ensures ok <==> !SomeError(errors) && AllWhole(writes)
      ensures ok ==> dest == src
      ensures dest <= src
    {
      var buffer := Fread();
      while |buffer| > 0
        invariant pos <= |src| && |buffer| <= pos
        invariant buffer == src[pos - |buffer|..pos] && dest == src[..pos - |buffer|]
        invariant ferror <==> SomeError(errors)
        invariant AllWhole(writes) && (|buffer| == 0 && !ferror ==> pos == |src|)
        decreases |src| - pos + |buffer|
      {
        ghost var at := pos - |buffer|;
        assert src[..at] + buffer == src[..pos];
        var bytesWritten := Fwrite(buffer);
        if bytesWritten != |buffer| {
          assert writes[|writes| - 1].done < writes[|writes| - 1].asked;
          assert src[..at] + buffer[..bytesWritten] == src[..at + bytesWritten];
          return false;
        }
        ghost var log := errors;
        buffer := Fread();
        assert SomeError(errors) <==> SomeError(log) || errors[|log|] by {
          assert forall i :: 0 <= i < |log| ==> errors[i] == errors[..|log|][i] == log[i];
        }
      }
      ok := !ferror;
    }
  }

  /**
  The two programs agree: whatever the kernel does, when both succeed and the asynchronous one had no
  failed submit and no short completion in its drain, they leave the same bytes behind.
  */
  method CopyBothWays(src: seq<Byte>, agains: nat)
    returns (o: Outcome, ok: bool, fast: seq<Byte>, plain: seq<Byte>,
             ghost left: CopyModel.State, ghost submits: seq<int>, ghost drained: seq<Drained>)
    ensures o == Returned(0) ==> LoopLeft(left, src, []) && IsDrain(left, src, drained)
    ensures o == Returned(0) && AllSucceeded(submits) && AllFull(left, src, drained) ==> fast == src
    ensures o == Returned(0) && AllSucceeded(submits) && AllFull(left, src, drained) && ok ==> fast == plain
    ensures ok ==> plain == src
  {
    var engine := new CopyEngine(src, [], agains);
    o, left := engine.Copy();
    fast, submits, drained := engine.dest, engine.submits, engine.drained;
    var streams := new Streams(src);
    ok := streams.Copy();
    plain := streams.dest;
  }
}
