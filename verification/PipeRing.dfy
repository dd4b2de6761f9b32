/** The pipe's circular byte buffer. */
module PipeRing {
  import opened PipeSpec
  import opened Circular
  import opened Common

  lemma Shift<T>(all: seq<T>, taken: seq<T>, before: seq<T>, more: seq<T>, after: seq<T>)
    requires all == taken + before && before == more + after
    ensures all == (taken + more) + after
  {
  }

  /** The contents are the `used` cells from the read index on, and the write index follows them. */
  ghost predicate RingOk<T>(size: nat, used: nat, read: nat, write: nat, buf: seq<T>, contents: seq<T>) {
    && |buf| == size
    && used == |contents| <= size
    && (size == 0 ==> read == 0 && write == 0)
    && (size > 0 ==> read < size && write == Wrap(size, read + used))
    && contents == Window(buf, read, used)
  }

  /** An index moved on by a run that ends at the end of the buffer at the latest. */
  function Advance(size: nat, i: nat, n: nat): (r: nat) { if i + n == size then 0 else i + n }

  lemma RunPut<T>(size: nat, used: nat, read: nat, write: nat, buf: seq<T>, contents: seq<T>, src: seq<T>)
    requires RingOk(size, used, read, write, buf, contents) && |src| <= size - used && |src| <= size - write
    ensures RingOk(size, used + |src|, read, Advance(size, write, |src|), Patch(buf, write, src), contents + src)
  {
    if size > 0 { WindowExtend(buf, read, used, src); }
  }

  lemma RunTaken<T>(size: nat, used: nat, read: nat, write: nat, buf: seq<T>, contents: seq<T>, n: nat)
    requires RingOk(size, used, read, write, buf, contents) && n <= used && n <= size - read
    ensures RingOk(size, used - n, Advance(size, read, n), write, buf, contents[n..])
    ensures contents == buf[read..read + n] + contents[n..]
  {
    if size > 0 {
      WindowSplit(buf, read, used, n);
      assert contents[n..] == Window(buf, Wrap(size, read + n), used - n);
    }
  }

  lemma TakeOn<T>(c: seq<T>, src: seq<T>, n: nat, more: nat)
    requires n + more <= |src|
    ensures c + src[..n] + src[n..][..more] == c + src[..n + more]
  {
    assert src[..n] + src[n..][..more] == src[..n + more];
  }

  class Ring<T(0)> {
    const size: nat
    const buffer: array<T>
    var bytesUsed: nat
    var readIndex: nat
    var writeIndex: nat

    ghost var contents: seq<T>

    ghost predicate Valid()
      reads this, buffer
    {
      RingOk(size, bytesUsed, readIndex, writeIndex, buffer[..], contents)
    }

    constructor (bytes: array<T>)
      ensures Valid() && contents == [] && size == bytes.Length && buffer == bytes
    {
      buffer, size := bytes, bytes.Length;
      bytesUsed, readIndex, writeIndex := 0, 0, 0;
      contents := [];
    }

    /** `_pipe_xfer` into the buffer: copy as much of `src` as `room` allows, starting at `at`. */
    method XferIn(at: nat, room: nat, src: seq<T>) returns (n: nat)
      requires at + room <= buffer.Length
      modifies buffer
      ensures n == Min(room, |src|)
      ensures buffer[..] == Patch(old(buffer[..]), at, src[..n])
    {
      n := Min(room, |src|);
      var i := 0;
      while i < n
        invariant 0 <= i <= n
        invariant buffer[..] == Patch(old(buffer[..]), at, src[..i])
      {
        buffer[at + i] := src[i];
        i := i + 1;
      }
    }

    /** `_pipe_xfer` out of the buffer. */
    method XferOut(at: nat, run: nat, want: nat) returns (dest: seq<T>)
      requires at + run <= buffer.Length
      ensures dest == buffer[at..at + Min(run, want)]
    {
      dest := [];
      var n := Min(run, want);
      var i := 0;
      while i < n
        invariant 0 <= i <= n && dest == buffer[at..at + i]
      {
        dest := dest + [buffer[at + i]];
        i := i + 1;
      }
    }

    /** One round of `_pipe_buffer_put`: a contiguous run from the write index. */
    method PutRun(src: seq<T>) returns (n: nat)
      requires Valid()
      modifies this, buffer
      ensures Valid() && readIndex == old(readIndex)
      ensures n == Min(Min(size - old(bytesUsed), size - old(writeIndex)), |src|)
      ensures contents == old(contents) + src[..n]
      ensures bytesUsed == old(bytesUsed) + n && writeIndex == Advance(size, old(writeIndex), n)
    {
      var run := Min(size - bytesUsed, size - writeIndex);
      n := XferIn(writeIndex, run, src);
      RunPut(size, bytesUsed, readIndex, writeIndex, old(buffer[..]), contents, src[..n]);
      contents := contents + src[..n];
      bytesUsed := bytesUsed + n;
      writeIndex := writeIndex + n;
      if writeIndex == size {
        writeIndex := 0;
      }
    }

    /** `_pipe_buffer_put`: as much of `src` as fits. */
    method Put(src: seq<T>) returns (n: nat)
      requires Valid()
      modifies this, buffer
      ensures Valid()
      ensures n <= |src| && contents == old(contents) + src[..n]
      ensures n < |src| ==> |contents| == size
    {
      n := 0;
      for i := 0 to 2
        invariant Valid() && n <= |src| && contents == old(contents) + src[..n]
        invariant i == 1 ==> n == |src| || bytesUsed == size || writeIndex == 0
        invariant i == 2 ==> n == |src| || bytesUsed == size
      {
        var copied := PutRun(src[n..]);
        TakeOn(old(contents), src, n, copied);
        n := n + copied;
      }
    }

    /** One round of `_pipe_buffer_get`. */
    method GetRun(want: nat) returns (dest: seq<T>)
      requires Valid()
      modifies this
      ensures Valid()
      ensures |dest| == Min(Min(old(bytesUsed), size - old(readIndex)), want)
      ensures old(contents) == dest + contents
      ensures bytesUsed == old(bytesUsed) - |dest| == |contents|
      ensures readIndex == if old(readIndex) + |dest| == size then 0 else old(readIndex) + |dest|
    {
      var run := Min(bytesUsed, size - readIndex);
      dest := XferOut(readIndex, run, want);
      RunTaken(size, bytesUsed, readIndex, writeIndex, buffer[..], contents, |dest|);
      contents := contents[|dest|..];
      bytesUsed := bytesUsed - |dest|;
      readIndex := readIndex + |dest|;
      if readIndex == size {
        readIndex := 0;
      }
    }

    /** `_pipe_buffer_get`: the oldest bytes, as many as wanted or all there are. */
    method Get(want: nat) returns (dest: seq<T>)
      requires Valid()
      modifies this
      ensures Valid()
      ensures old(contents) == dest + contents
      ensures |dest| <= want && (|dest| < want ==> contents == [])
    {
      dest := [];
      for i := 0 to 2
        invariant Valid() && |dest| <= want && old(contents) == dest + contents
        invariant i == 1 ==> |dest| == want || bytesUsed == 0 || readIndex == 0
        invariant i == 2 ==> |dest| == want || bytesUsed == 0
      {
        ghost var before := contents;
        var more := GetRun(want - |dest|);
        Shift(old(contents), dest, before, more, contents);
        dest := dest + more;
      }
    }
  }
}
