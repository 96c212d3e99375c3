/** The data copy of copy-up (`copy_data` of src/copyup.rs): clone, else sendfile, else
    read and write, each stage starting where the stage before it stopped. */
module CopyData {

  /** An open file: its contents and the offset the next transfer uses. */
  class OpenFile {
    var data: seq<int>
    var offset: nat

    constructor (contents: seq<int>)
      ensures data == contents && offset == 0
    {
      data := contents;
      offset := 0;
    }
  }

  datatype Transfer = Done(n: nat) | Interrupted | Failed

  /** The kernel side of the transfers. The file system can clone or not; sendfile is sound or may
      fail at any call; every other outcome that the calls allow may happen, and signals interrupt
      sendfile any finite number of times. */
  class Kernel {
    const clones: bool
    const sends: bool
    var interruptsLeft: nat
    /** How many reads and writes have failed. */
    ghost var failures: nat

    constructor (interrupts: nat, canClone: bool, canSend: bool)
      ensures interruptsLeft == interrupts && clones == canClone && sends == canSend && failures == 0
    {
      interruptsLeft, clones, sends, failures := interrupts, canClone, canSend, 0;
    }

    /** FICLONE: all of `src`, or an error and nothing at all. */
    method Clone(dst: OpenFile, src: OpenFile) returns (ok: bool)
      requires dst != src
      modifies dst`data
      ensures ok == clones
      ensures ok ==> dst.data == src.data
      ensures !ok ==> dst.data == old(dst.data)
    {
      ok := clones;
      if ok {
        dst.data := src.data;
      }
    }

    /** Any part of what is asked for, at least one byte unless the source is at its end. */
    method SendFile(dst: OpenFile, src: OpenFile, count: nat) returns (r: Transfer)
      requires dst != src && count > 0
      requires src.offset <= |src.data| && dst.offset == |dst.data|
      modifies this`interruptsLeft, dst, src`offset
      ensures r.Interrupted? ==> interruptsLeft < old(interruptsLeft)
      ensures !r.Interrupted? ==> interruptsLeft == old(interruptsLeft)
      ensures var n := if r.Done? then r.n else 0;
              && n <= count
              && src.offset == old(src.offset) + n <= |src.data|
              && dst.offset == old(dst.offset) + n
              && dst.data == old(dst.data) + src.data[old(src.offset)..src.offset]
      ensures r.Done? && r.n == 0 ==> src.offset == |src.data|
      ensures r.Failed? ==> !sends
    {
      var fails: bool, interrupted: bool := *, *;
      if !sends && fails {
        r := Failed;
      } else if interruptsLeft > 0 && interrupted {
        interruptsLeft := interruptsLeft - 1;
        r := Interrupted;
      } else {
        var available := |src.data| - src.offset;
        var most := if count < available then count else available;
        var n: int := *;
        if n < 1 || n > most { n := most; }
        dst.data := dst.data + src.data[src.offset..src.offset + n];
        src.offset := src.offset + n;
        dst.offset := dst.offset + n;
        r := Done(n);
      }
    }

    /** The next bytes of `src`, at least one unless it is at its end. */
    method Read(src: OpenFile, count: nat) returns (ok: bool, buf: seq<int>)
      requires count > 0 && src.offset <= |src.data|
      modifies this`failures, src`offset
      ensures old(failures) <= failures && (ok <==> failures == old(failures))
      ensures !ok ==> src.offset == old(src.offset)
      ensures ok ==> src.offset == old(src.offset) + |buf| <= |src.data|
      ensures ok ==> buf == src.data[old(src.offset)..src.offset]
      ensures ok && buf == [] ==> src.offset == |src.data|
    {
      ok := *;
      buf := [];
      if !ok {
        failures := failures + 1;
      } else {
        var available := |src.data| - src.offset;
        var most := if count < available then count else available;
        var n: int := *;
        if n < 1 || n > most { n := most; }
        buf := src.data[src.offset..src.offset + n];
        src.offset := src.offset + n;
      }
    }

    /** Some of `buf`, at least one byte. */
    method Write(dst: OpenFile, buf: seq<int>) returns (ok: bool, n: nat)
      requires buf != [] && dst.offset == |dst.data|
      modifies this`failures, dst
      ensures old(failures) <= failures && (ok <==> failures == old(failures))
      ensures !ok ==> dst.data == old(dst.data) && dst.offset == old(dst.offset)
      ensures ok ==> 1 <= n <= |buf| && dst.data == old(dst.data) + buf[..n] && dst.offset == |dst.data|
    {
      ok := *;
      n := *;
      if n < 1 || n > |buf| { n := |buf|; }
      if !ok {
        failures := failures + 1;
      } else {
        dst.data := dst.data + buf[..n];
        dst.offset := |dst.data|;
      }
    }
  }

  const BUF_SIZE := 0x10_0000

  /** The first `size` bytes, which is what sendfile alone leaves behind. */
  function Cut(source: seq<int>, size: int): seq<int> {
    if size < 0 then [] else if size < |source| then source[..size] else source
  }

  /** What a successful copy may leave behind: the whole source, or, if the source is longer
      than the size that was asked for, its first `size` bytes. */
  predicate Copied(copy: seq<int>, source: seq<int>, size: int) {
    || copy == source
    || copy == Cut(source, size)
  }

  /** `copy_data`. A clone, or a copy that the last stage has finished, is the whole source; where
      sendfile does all the work, the copy ends after `size` bytes. It fails only if a read or a write
      does. */
  method CopyData(kernel: Kernel, src: OpenFile, dst: OpenFile, size: int) returns (ok: bool)
    requires dst != src
    requires src.offset == 0 && dst.data == [] && dst.offset == 0
    modifies kernel, src`offset, dst
    ensures ok ==> Copied(dst.data, src.data, size)
    ensures kernel.clones ==> ok && dst.data == src.data
    ensures !kernel.clones && kernel.sends ==> ok && dst.data == Cut(src.data, size)
    ensures old(kernel.failures) <= kernel.failures && (ok <==> kernel.failures == old(kernel.failures))
  {
    var cloned := kernel.Clone(dst, src);
    if cloned {
      return true;
    }

    var copied := 0;
    while copied < size
      invariant kernel.failures == old(kernel.failures)
      invariant 0 <= copied <= |src.data| && (copied <= size || copied == 0)
      invariant src.offset == copied == dst.offset && dst.data == src.data[..copied]
      decreases size - copied, kernel.interruptsLeft
    {
      var r := kernel.SendFile(dst, src, size - copied);
      match r
      case Interrupted => continue;
      case Failed => break;
      case Done(n) =>
        if n == 0 {
          return true;
        }
        copied := copied + n;
    }

    if copied >= size {
      return true;
    }

    ok := ReadWriteRest(kernel, src, dst);
  }

  /** The last stage of `copy_data`, from the offsets the stages before it left behind. */
  method ReadWriteRest(kernel: Kernel, src: OpenFile, dst: OpenFile) returns (ok: bool)
    requires dst != src && src.offset <= |src.data|
    requires dst.offset == src.offset && dst.data == src.data[..src.offset]
    modifies kernel`failures, src`offset, dst
    ensures ok ==> dst.data == src.data
    ensures old(kernel.failures) <= kernel.failures && (ok <==> kernel.failures == old(kernel.failures))
  {
    while true
      invariant src.offset <= |src.data| && kernel.failures == old(kernel.failures)
      invariant dst.offset == src.offset && dst.data == src.data[..src.offset]
      decreases |src.data| - src.offset
    {
      ghost var start := src.offset;
      var readOk, buf := kernel.Read(src, BUF_SIZE);
      if !readOk {
        return false;
      }
      if buf == [] {
        break;
      }
      var written := 0;
      while written < |buf|
        invariant 0 <= written <= |buf| && kernel.failures == old(kernel.failures)
        invariant src.offset == start + |buf| <= |src.data|
        invariant dst.data == src.data[..start] + buf[..written] && dst.offset == |dst.data|
      {
        var writeOk, n := kernel.Write(dst, buf[written..]);
        if !writeOk {
          return false;
        }
        assert buf[..written] + buf[written..][..n] == buf[..written + n];
        written := written + n;
      }
      assert src.data[..start] + buf == src.data[..src.offset];
    }
    return true;
  }

  /** Whatever the schedule of partial transfers, interrupts and failures was, a copy that
      succeeded is exact when the size asked for is not less than the length of the source. If it is
      less, the copy that a sound sendfile makes without a clone is not. */
  lemma SuccessfulCopyIsExact(source: seq<int>, size: int)
    ensures (forall c :: Copied(c, source, size) ==> c == source) <==> |source| <= size || source == []
    ensures Cut(source, size) == source <==> |source| <= size || source == []
  {
    if size < |source| && source != [] {
      assert Copied(Cut(source, size), source, size) && |Cut(source, size)| < |source|;
    }
  }
}
