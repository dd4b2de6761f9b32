/** Windows of a circular buffer: the `n` cells that follow `start`, wrapping at the end. */
module Circular {

  function Wrap(size: nat, i: nat): (r: nat) {
    if i < size then i else i - size
  }

  function Window<T>(buf: seq<T>, start: nat, n: nat): (w: seq<T>)
    requires n <= |buf| && (n > 0 ==> start < |buf|)
    ensures |w| == n
    ensures forall i | 0 <= i < n :: w[i] == buf[Wrap(|buf|, start + i)]
  {
    seq(n, i requires 0 <= i < n => buf[Wrap(|buf|, start + i)])
  }

  /** `buf` with `src` copied over the cells from `at` on. */
  function Patch<T>(buf: seq<T>, at: nat, src: seq<T>): (r: seq<T>)
    requires at + |src| <= |buf|
    ensures |r| == |buf|
    ensures forall i | 0 <= i < |r| :: r[i] == if at <= i < at + |src| then src[i - at] else buf[i]
  {
    buf[..at] + src + buf[at + |src|..]
  }

  /** Writing a contiguous run just past a window extends it. */
  lemma WindowExtend<T>(buf: seq<T>, start: nat, n: nat, src: seq<T>)
    requires 0 < |buf| && start < |buf| && n + |src| <= |buf|
    requires Wrap(|buf|, start + n) + |src| <= |buf|
    ensures Window(Patch(buf, Wrap(|buf|, start + n), src), start, n + |src|) == Window(buf, start, n) + src
  {
    var at := Wrap(|buf|, start + n);
    var r := Window(Patch(buf, at, src), start, n + |src|);
    forall i | 0 <= i < |r| ensures r[i] == (Window(buf, start, n) + src)[i] {
      if i < n {
        assert !(at <= Wrap(|buf|, start + i) < at + |src|);
      } else {
        assert Wrap(|buf|, start + i) == at + (i - n);
      }
    }
  }

  /** A window is its first contiguous run followed by the window after it. */
  lemma WindowSplit<T>(buf: seq<T>, start: nat, n: nat, run: nat)
    requires 0 < |buf| && start < |buf| && run <= n <= |buf| && start + run <= |buf|
    ensures Window(buf, start, n) == buf[start..start + run] + Window(buf, Wrap(|buf|, start + run), n - run)
  {
  }
}
