/**
 Scatter-gather vectors (cutils.c): a list of buffers and the cached sum of their lengths.
 */
module Iovec {

  type Byte = b: int | 0 <= b < 256
  type Bytes = seq<Byte>

  datatype Qiov = Qiov(iov: seq<Bytes>, size: nat)

  function Flatten(iov: seq<Bytes>): Bytes {
    if |iov| == 0 then [] else Flatten(iov[..|iov| - 1]) + iov[|iov| - 1]
  }

  /** The bytes a vector stands for. */
  function Data(q: Qiov): Bytes { Flatten(q.iov) }

  /** The cached size is the size. */
  predicate Valid(q: Qiov) { q.size == |Data(q)| }

  /** qemu_iovec_add. */
  function Add(q: Qiov, base: Bytes): (r: Qiov)
    requires Valid(q)
    ensures Valid(r) && Data(r) == Data(q) + base
  {
    var r := Qiov(q.iov + [base], q.size + |base|);
    assert r.iov[..|r.iov| - 1] == q.iov;
    r
  }

  function Take(b: Bytes, n: nat): Bytes { if n < |b| then b[..n] else b }

  lemma {:induction false} FlattenPrefix(iov: seq<Bytes>, i: nat)
    requires i <= |iov|
    ensures Flatten(iov[..i]) <= Flatten(iov)
    decreases |iov|
  {
    if i < |iov| {
      var n := |iov| - 1;
      FlattenPrefix(iov[..n], i);
      assert iov[..n][..i] == iov[..i];
    } else {
      assert iov[..i] == iov;
    }
  }

  /** qemu_iovec_concat: appends the first size bytes of src, or all of it if it is shorter, trimming
      the last buffer that does not fit. */
  method Concat(dst: Qiov, src: Qiov, size: nat) returns (r: Qiov)
    requires Valid(dst)
    ensures Valid(r) && Data(r) == Data(dst) + Take(Data(src), size)
  {
    r := dst;
    var done, i := 0, 0;
    hide Flatten;
    assert Flatten(src.iov[..0]) == [] by { FlattenNothing(src.iov); }
    assert Data(dst) + [] == Data(dst);
    while i < |src.iov| && done != size
      invariant 0 <= i <= |src.iov| && Valid(r)
      invariant done == |Flatten(src.iov[..i])| && done <= size
      invariant Data(r) == Data(dst) + Flatten(src.iov[..i])
    {
      FlattenStep(src.iov, i, size);
      if done + |src.iov[i]| > size {
        Regrouped(Data(dst), Flatten(src.iov[..i]), src.iov[i][..size - done]);
        r := Add(r, src.iov[i][..size - done]);
        return;
      } else {
        Regrouped(Data(dst), Flatten(src.iov[..i]), src.iov[i]);
        r := Add(r, src.iov[i]);
      }
      done := done + |src.iov[i]|;
      i := i + 1;
    }
    FlattenPrefix(src.iov, i);
    assert src.iov[..|src.iov|] == src.iov;
  }

  lemma FlattenNothing(iov: seq<Bytes>)
    ensures Flatten(iov[..0]) == []
  {}

  lemma Regrouped(a: Bytes, b: Bytes, c: Bytes)
    ensures a + b + c == a + (b + c)
  {}

  /** One more buffer, and where the first size bytes end if they end in it. */
  lemma FlattenStep(iov: seq<Bytes>, i: nat, size: nat)
    requires i < |iov| && |Flatten(iov[..i])| <= size
    ensures Flatten(iov[..i + 1]) == Flatten(iov[..i]) + iov[i]
    ensures |Flatten(iov[..i])| + |iov[i]| > size ==>
            Take(Flatten(iov), size) == Flatten(iov[..i]) + iov[i][..size - |Flatten(iov[..i])|]
  {
    assert iov[..i + 1][..i] == iov[..i] && iov[..i + 1][i] == iov[i];
    FlattenPrefix(iov, i + 1);
    hide Flatten;
    var all, done := Flatten(iov), Flatten(iov[..i]);
    if |done| + |iov[i]| > size {
      assert all[..|done| + |iov[i]|] == done + iov[i];
      assert all[..size] == (done + iov[i])[..size];
    }
  }
}
