/**
 Merging of multiple write requests (multiwrite_merge in block.c): what merging means for the
 disk, when it is right, and the in-place pass over the request array.
 */
module Multiwrite {
  import opened Sequences
  import opened Iovec

  const SECTOR_SIZE := 512

  /** A write request seen from outside: where it starts, how many sectors it claims, and its data. */
  datatype Req = Req(sector: nat, nb: nat, data: Bytes)

  /** The vector has the size the sector count promises. */
  predicate WellFormed(r: Req) { |r.data| == r.nb * SECTOR_SIZE }

  function End(r: Req): nat { r.sector + r.nb }

  predicate Overlap(a: Req, b: Req) { a.sector < End(b) && b.sector < End(a) }

  predicate Disjoint(rs: seq<Req>) {
    forall i, j :: 0 <= i < j < |rs| ==> !Overlap(rs[i], rs[j])
  }

  predicate Sorted(rs: seq<Req>) {
    forall i, j :: 0 <= i < j < |rs| ==> rs[i].sector <= rs[j].sector
  }

  predicate AllWellFormed(rs: seq<Req>) {
    forall i :: 0 <= i < |rs| ==> WellFormed(rs[i])
  }

  predicate NonEmpty(rs: seq<Req>) {
    forall i :: 0 <= i < |rs| ==> 0 < rs[i].nb
  }

  // ---------- the merging pass ----------

  /** Two requests combined: the first, cut where the second starts, and then the second. */
  function Join(a: Req, b: Req): Req
    requires a.sector <= b.sector
  {
    Req(a.sector, a.nb + b.nb, Take(a.data, (b.sector - a.sector) * SECTOR_SIZE) + b.data)
  }

  /** The pass: cur is the last request kept so far, rest what is still to be looked at. */
  function Merge(cur: Req, rest: seq<Req>): (m: seq<Req>)
    requires forall k :: 0 <= k < |rest| ==> cur.sector <= rest[k].sector
    requires Sorted(rest)
    ensures 0 < |m| <= 1 + |rest|
    decreases |rest|
  {
    if |rest| == 0 then [cur]
    else if rest[0].sector <= End(cur) then Merge(Join(cur, rest[0]), rest[1..])
    else [cur] + Merge(rest[0], rest[1..])
  }

  function MergeAll(rs: seq<Req>): seq<Req>
    requires 0 < |rs| && Sorted(rs)
  {
    Merge(rs[0], rs[1..])
  }

  // ---------- when the result is well formed ----------

  /** Once a request claims more sectors than it has data, no later merge repairs it. */
  lemma {:induction false} ShortStaysShort(cur: Req, rest: seq<Req>)
    requires forall k :: 0 <= k < |rest| ==> cur.sector <= rest[k].sector
    requires Sorted(rest) && AllWellFormed(rest) && |cur.data| < cur.nb * SECTOR_SIZE
    ensures !AllWellFormed(Merge(cur, rest))
    decreases |rest|
  {
    var m := Merge(cur, rest);
    if |rest| == 0 || rest[0].sector > End(cur) {
      assert m[0] == cur;
    } else {
      ShortStaysShort(Join(cur, rest[0]), rest[1..]);
    }
  }

  /** Merging keeps every vector as long as its sector count promises exactly when no request
      overlaps the one before it. */
  lemma {:induction false} MergeWellFormed(cur: Req, rest: seq<Req>)
    requires forall k :: 0 <= k < |rest| ==> cur.sector <= rest[k].sector
    requires Sorted(rest) && AllWellFormed(rest) && NonEmpty(rest) && WellFormed(cur) && 0 < cur.nb
    ensures AllWellFormed(Merge(cur, rest)) <==> Disjoint([cur] + rest)
    decreases |rest|
  {
    var all := [cur] + rest;
    if |rest| > 0 {
      var b := rest[0];
      assert rest == [b] + rest[1..];
      if b.sector < End(cur) {
        assert Overlap(all[0], all[1]);
        ShortStaysShort(Join(cur, b), rest[1..]);
      } else if b.sector == End(cur) {
        hide Disjoint, AllWellFormed;
        assert AllWellFormed(rest[1..]) by { TailWellFormed(rest); }
        MergeWellFormed(Join(cur, b), rest[1..]);
        JoinDisjoint(cur, b, rest[1..]);
      } else {
        assert WellFormed(b);
        hide Disjoint, AllWellFormed;
        assert AllWellFormed(rest[1..]) by { TailWellFormed(rest); }
        MergeWellFormed(b, rest[1..]);
        var m := Merge(b, rest[1..]);
        assert Merge(cur, rest) == [cur] + m;
        assert AllWellFormed([cur] + m) <==> AllWellFormed(m) by { ConsWellFormed(cur, m); }
        AheadDisjoint(cur, rest);
      }
    }
  }

  lemma TailWellFormed(rs: seq<Req>)
    requires AllWellFormed(rs) && |rs| > 0
    ensures AllWellFormed(rs[1..]) && WellFormed(rs[0])
  {}

  lemma ConsWellFormed(a: Req, m: seq<Req>)
    requires WellFormed(a)
    ensures AllWellFormed([a] + m) <==> AllWellFormed(m)
  {
    if AllWellFormed([a] + m) {
      forall i | 0 <= i < |m|
        ensures WellFormed(m[i])
      {
        assert ([a] + m)[i + 1] == m[i];
      }
    }
  }

  /** A request that ends before a sorted list starts overlaps nothing in it. */
  lemma AheadDisjoint(a: Req, rest: seq<Req>)
    requires Sorted(rest) && 0 < |rest| && End(a) <= rest[0].sector
    ensures Disjoint([a] + rest) <==> Disjoint(rest)
  {
    var all := [a] + rest;
    if Disjoint(all) {
      forall i, j | 0 <= i < j < |rest|
        ensures !Overlap(rest[i], rest[j])
      {
        assert rest[i] == all[i + 1] && rest[j] == all[j + 1];
      }
    }
  }

  /** Two touching requests overlap something exactly when their union does. */
  lemma JoinDisjoint(a: Req, b: Req, rest: seq<Req>)
    requires b.sector == End(a) && 0 < a.nb && 0 < b.nb
    requires Sorted(rest) && NonEmpty(rest) && forall k :: 0 <= k < |rest| ==> b.sector <= rest[k].sector
    ensures Disjoint([Join(a, b)] + rest) <==> Disjoint([a] + ([b] + rest))
  {
    var two, one := [a] + ([b] + rest), [Join(a, b)] + rest;
    if Disjoint(two) {
      forall i, j | 0 <= i < j < |one|
        ensures !Overlap(one[i], one[j])
      {
        assert one[j] == two[j + 1];
        if i == 0 {
          assert !Overlap(two[0], two[j + 1]) && !Overlap(two[1], two[j + 1]);
        } else {
          assert one[i] == two[i + 1];
        }
      }
    }
    if Disjoint(one) {
      forall i, j | 0 <= i < j < |two|
        ensures !Overlap(two[i], two[j])
      {
        if j >= 2 {
          assert two[j] == one[j - 1];
          if i < 2 {
            assert !Overlap(one[0], one[j - 1]);
          } else {
            assert two[i] == one[i - 1];
          }
        }
      }
    }
  }

  // ---------- what the requests do to a disk ----------

  type Disk = seq<Byte>

  function Offset(r: Req): nat { r.sector * SECTOR_SIZE }

  predicate Covers(r: Req, x: nat) { Offset(r) <= x < Offset(r) + |r.data| }

  predicate Fits(rs: seq<Req>, size: nat) {
    forall i :: 0 <= i < |rs| ==> Offset(rs[i]) + |rs[i].data| <= size
  }

  function Write(disk: Disk, r: Req): (d: Disk)
    requires Offset(r) + |r.data| <= |disk|
    ensures |d| == |disk|
    ensures forall x :: 0 <= x < |disk| ==> d[x] == if Covers(r, x) then r.data[x - Offset(r)] else disk[x]
  {
    disk[..Offset(r)] + r.data + disk[Offset(r) + |r.data|..]
  }

  /** The requests complete one after the other. */
  function WriteAll(disk: Disk, rs: seq<Req>): (d: Disk)
    requires Fits(rs, |disk|)
    ensures |d| == |disk|
    decreases |rs|
  {
    if |rs| == 0 then disk else WriteAll(Write(disk, rs[0]), rs[1..])
  }

  /** The byte the first request covering x has for it, or the given default. */
  function At(rs: seq<Req>, x: nat, default: Byte): Byte {
    if |rs| == 0 then default
    else if Covers(rs[0], x) then rs[0].data[x - Offset(rs[0])]
    else At(rs[1..], x, default)
  }

  lemma {:induction false} AtAppend(a: seq<Req>, b: seq<Req>, x: nat, default: Byte)
    ensures At(a + b, x, default) == At(a, x, At(b, x, default))
    decreases |a|
  {
    if |a| == 0 {
      assert a + b == b;
    } else {
      assert (a + b)[1..] == a[1..] + b && (a + b)[0] == a[0];
      AtAppend(a[1..], b, x, default);
    }
  }

  /** A byte belongs to at most one of a list of disjoint requests. */
  lemma {:induction false} AtOwner(rs: seq<Req>, x: nat, default: Byte, k: nat)
    requires Disjoint(rs) && AllWellFormed(rs) && k < |rs| && Covers(rs[k], x)
    ensures At(rs, x, default) == rs[k].data[x - Offset(rs[k])]
    decreases |rs|
  {
    if k > 0 {
      assert !Covers(rs[0], x) by {
        assert !Overlap(rs[0], rs[k]);
      }
      DisjointTail(rs);
      AtOwner(rs[1..], x, default, k - 1);
    }
  }

  lemma {:induction false} AtNobody(rs: seq<Req>, x: nat, default: Byte)
    requires forall k :: 0 <= k < |rs| ==> !Covers(rs[k], x)
    ensures At(rs, x, default) == default
    decreases |rs|
  {
    if |rs| > 0 { AtNobody(rs[1..], x, default); }
  }

  lemma DisjointTail(rs: seq<Req>)
    requires Disjoint(rs) && 0 < |rs|
    ensures Disjoint(rs[1..])
  {
    forall i, j | 0 <= i < j < |rs[1..]|
      ensures !Overlap(rs[1..][i], rs[1..][j])
    {
      assert !Overlap(rs[i + 1], rs[j + 1]);
    }
  }

  /** Disjoint writes, in any order, put each covered byte where At finds it. */
  lemma {:induction false} WriteAllAt(disk: Disk, rs: seq<Req>, x: nat)
    requires Fits(rs, |disk|) && Disjoint(rs) && AllWellFormed(rs) && x < |disk|
    ensures WriteAll(disk, rs)[x] == At(rs, x, disk[x])
    decreases |rs|
  {
    if |rs| > 0 {
      DisjointTail(rs);
      WriteAllAt(Write(disk, rs[0]), rs[1..], x);
      if Covers(rs[0], x) {
        forall k | 0 <= k < |rs[1..]|
          ensures !Covers(rs[1..][k], x)
        {
          assert !Overlap(rs[0], rs[k + 1]);
        }
        AtNobody(rs[1..], x, Write(disk, rs[0])[x]);
      }
    }
  }

  // ---------- permutations ----------

  predicate Permutation(a: seq<Req>, b: seq<Req>) { multiset(a) == multiset(b) }

  lemma {:induction false} TwiceInSeq(a: seq<Req>, r: Req) returns (i: nat, j: nat)
    requires multiset(a)[r] >= 2
    ensures i < j < |a| && a[i] == r && a[j] == r
  {
    i :| 0 <= i < |a| && a[i] == r;
    assert a == a[..i] + [a[i]] + a[i + 1..];
    var rest := a[..i] + a[i + 1..];
    assert multiset(a) == multiset(rest) + multiset{r};
    assert r in multiset(rest) && r in rest;
    var k :| 0 <= k < |rest| && rest[k] == r;
    if k < i {
      i, j := k, i;
    } else {
      j := k + 1;
    }
  }

  lemma TwiceInMultiset(a: seq<Req>, i: nat, j: nat)
    requires i < j < |a| && a[i] == a[j]
    ensures multiset(a)[a[i]] >= 2
  {
    assert a == a[..i] + [a[i]] + a[i + 1..j] + [a[j]] + a[j + 1..];
  }

  /** Being disjoint does not depend on the order. */
  lemma PermutedDisjoint(a: seq<Req>, b: seq<Req>)
    requires Permutation(a, b) && NonEmpty(a) && Disjoint(a)
    ensures Disjoint(b)
  {
    forall i, j | 0 <= i < j < |b|
      ensures !Overlap(b[i], b[j])
    {
      assert b[i] in multiset(b) && b[j] in multiset(b);
      assert b[i] in multiset(a) && b[j] in multiset(a);
      if b[i] == b[j] {
        TwiceInMultiset(b, i, j);
        var k, l := TwiceInSeq(a, b[i]);
        assert !Overlap(a[k], a[l]);
      } else {
        var k :| 0 <= k < |a| && a[k] == b[i];
        var l :| 0 <= l < |a| && a[l] == b[j];
        assert k != l;
        assert if k < l then !Overlap(a[k], a[l]) else !Overlap(a[l], a[k]);
      }
    }
  }

  lemma PermutedAll(a: seq<Req>, b: seq<Req>)
    requires Permutation(a, b)
    ensures AllWellFormed(a) ==> AllWellFormed(b)
    ensures NonEmpty(a) ==> NonEmpty(b)
    ensures |a| == |b|
  {
    assert |multiset(a)| == |a| && |multiset(b)| == |b|;
    forall i | 0 <= i < |b|
      ensures AllWellFormed(a) ==> WellFormed(b[i])
      ensures NonEmpty(a) ==> 0 < b[i].nb
    {
      assert b[i] in multiset(b);
      assert b[i] in multiset(a);
      var k :| 0 <= k < |a| && a[k] == b[i];
    }
  }

  /** For disjoint requests the byte at x does not depend on the order. */
  lemma PermutedAt(a: seq<Req>, b: seq<Req>, x: nat, default: Byte)
    requires Permutation(a, b) && NonEmpty(a) && Disjoint(a) && AllWellFormed(a)
    ensures At(a, x, default) == At(b, x, default)
  {
    PermutedDisjoint(a, b);
    PermutedAll(a, b);
    if i :| 0 <= i < |a| && Covers(a[i], x) {
      assert a[i] in multiset(a);
      assert a[i] in multiset(b);
      var k :| 0 <= k < |b| && b[k] == a[i];
      AtOwner(a, x, default, i);
      AtOwner(b, x, default, k);
    } else {
      forall k | 0 <= k < |b|
        ensures !Covers(b[k], x)
      {
        assert b[k] in multiset(b);
        assert b[k] in multiset(a);
      }
      AtNobody(a, x, default);
      AtNobody(b, x, default);
    }
  }

  // ---------- merging keeps the meaning ----------

  /** Requests with a gap before each next one. */
  predicate Gaps(m: seq<Req>) {
    forall i :: 0 <= i < |m| - 1 ==> End(m[i]) < m[i + 1].sector
  }

  /** What the pass may rely on at every step: the request in hand and the rest are sorted,
      well formed and disjoint. */
  predicate Ready(cur: Req, rest: seq<Req>) {
    && (forall k :: 0 <= k < |rest| ==> cur.sector <= rest[k].sector) && Sorted(rest)
    && AllWellFormed([cur] + rest) && NonEmpty([cur] + rest) && Disjoint([cur] + rest)
  }

  lemma ReadyStep(cur: Req, rest: seq<Req>)
    requires Ready(cur, rest) && 0 < |rest|
    ensures End(cur) <= rest[0].sector && WellFormed(cur) && WellFormed(rest[0])
    ensures if rest[0].sector == End(cur) then Ready(Join(cur, rest[0]), rest[1..]) else Ready(rest[0], rest[1..])
  {
    var all := [cur] + rest;
    assert all[1] == rest[0] && rest == [rest[0]] + rest[1..];
    assert !Overlap(all[0], all[1]);
    TailFacts(cur, rest);
    if rest[0].sector == End(cur) { JoinFacts(cur, rest[0], rest[1..]); }
  }

  lemma MergeUnfolds(cur: Req, rest: seq<Req>)
    requires (forall k :: 0 <= k < |rest| ==> cur.sector <= rest[k].sector) && Sorted(rest) && 0 < |rest|
    ensures (forall k :: 0 <= k < |rest[1..]| ==> rest[0].sector <= rest[1..][k].sector) && Sorted(rest[1..])
    ensures Merge(cur, rest) ==
            if rest[0].sector <= End(cur) then Merge(Join(cur, rest[0]), rest[1..])
            else [cur] + Merge(rest[0], rest[1..])
  {}

  lemma AtCons(a: Req, m: seq<Req>, x: nat, default: Byte)
    ensures At([a] + m, x, default) == if Covers(a, x) then a.data[x - Offset(a)] else At(m, x, default)
  {
    assert ([a] + m)[1..] == m;
  }

  lemma {:induction false} MergeMeaning(cur: Req, rest: seq<Req>, x: nat, default: Byte)
    requires Ready(cur, rest)
    ensures At(Merge(cur, rest), x, default) == At([cur] + rest, x, default)
    decreases |rest|
  {
    ReadyOrder(cur, rest);
    if |rest| > 0 {
      var b := rest[0];
      ReadyStep(cur, rest);
      MergeUnfolds(cur, rest);
      assert rest == [b] + rest[1..];
      hide Ready, Merge, At, Join, Covers;
      if b.sector == End(cur) {
        MergeMeaning(Join(cur, b), rest[1..], x, default);
        JoinMeaning(cur, b, rest[1..], x, default);
      } else {
        MergeMeaning(b, rest[1..], x, default);
        AtCons(cur, Merge(b, rest[1..]), x, default);
        AtCons(cur, rest, x, default);
      }
    } else {
      assert [cur] + rest == [cur];
    }
  }

  lemma ReadyOrder(cur: Req, rest: seq<Req>)
    requires Ready(cur, rest)
    ensures (forall k :: 0 <= k < |rest| ==> cur.sector <= rest[k].sector) && Sorted(rest)
    ensures WellFormed(cur) && 0 < cur.nb
  {
    TailFacts(cur, rest);
  }

  /** The merged requests keep a gap between neighbours and stay where the originals were. */
  lemma {:induction false} MergeShape(cur: Req, rest: seq<Req>, size: nat)
    requires Ready(cur, rest) && Fits([cur] + rest, size)
    ensures var m := Merge(cur, rest); Gaps(m) && m[0].sector == cur.sector && NonEmpty(m) && Fits(m, size)
    decreases |rest|
  {
    hide Ready, Fits, Join;
    ReadyOrder(cur, rest);
    if |rest| > 0 {
      var b := rest[0];
      ReadyStep(cur, rest);
      FitsStep(cur, rest, size);
      if b.sector == End(cur) {
        MergeShape(Join(cur, b), rest[1..], size);
        assert Join(cur, b).sector == cur.sector by { JoinStart(cur, b); }
      } else {
        assert [b] + rest[1..] == rest;
        MergeShape(b, rest[1..], size);
        FitsCons(cur, Merge(b, rest[1..]), size);
        assert Merge(cur, rest) == [cur] + Merge(b, rest[1..]);
      }
    } else {
      assert [cur] + rest == [cur];
    }
  }

  lemma JoinStart(a: Req, b: Req)
    requires a.sector <= b.sector
    ensures Join(a, b).sector == a.sector
  {}

  lemma FitsCons(a: Req, m: seq<Req>, size: nat)
    requires Fits(m, size) && Offset(a) + |a.data| <= size
    ensures Fits([a] + m, size)
  {}

  lemma JoinedEnd(a: Req, b: Req)
    requires a.sector <= b.sector
    ensures WellFormed(a) && End(a) == b.sector ==>
            Join(a, b).sector == a.sector && Offset(a) + |Join(a, b).data| == Offset(b) + |b.data|
  {}

  lemma FitsStep(cur: Req, rest: seq<Req>, size: nat)
    requires Fits([cur] + rest, size) && 0 < |rest| && cur.sector <= rest[0].sector
    ensures Offset(cur) + |cur.data| <= size && Fits(rest, size)
    ensures WellFormed(cur) && End(cur) == rest[0].sector ==> Fits([Join(cur, rest[0])] + rest[1..], size)
  {
    var all := [cur] + rest;
    assert all[0] == cur && forall k :: 0 <= k < |rest| ==> all[k + 1] == rest[k];
    JoinedEnd(cur, rest[0]);
    hide Join;
    var j := Join(cur, rest[0]);
    assert forall k :: 1 <= k < |rest| ==> ([j] + rest[1..])[k] == rest[k];
  }

  lemma TailFacts(cur: Req, rest: seq<Req>)
    requires AllWellFormed([cur] + rest) && NonEmpty([cur] + rest) && Disjoint([cur] + rest)
    ensures AllWellFormed(rest) && NonEmpty(rest) && Disjoint(rest) && WellFormed(cur) && 0 < cur.nb
  {
    var all := [cur] + rest;
    assert all[0] == cur && forall k :: 0 <= k < |rest| ==> all[k + 1] == rest[k];
    DisjointTail(all);
    assert all[1..] == rest;
  }

  lemma JoinFacts(a: Req, b: Req, rest: seq<Req>)
    requires b.sector == End(a) && Sorted(rest) && forall k :: 0 <= k < |rest| ==> b.sector <= rest[k].sector
    requires AllWellFormed([a] + ([b] + rest)) && NonEmpty([a] + ([b] + rest)) && Disjoint([a] + ([b] + rest))
    ensures var one := [Join(a, b)] + rest; AllWellFormed(one) && NonEmpty(one) && Disjoint(one)
  {
    TailFacts(a, [b] + rest);
    TailFacts(b, rest);
    JoinDisjoint(a, b, rest);
  }

  lemma JoinMeaning(a: Req, b: Req, rest: seq<Req>, x: nat, default: Byte)
    requires b.sector == End(a) && WellFormed(a) && WellFormed(b)
    ensures At([Join(a, b)] + rest, x, default) == At([a] + ([b] + rest), x, default)
  {
    var j := Join(a, b);
    assert j.data == a.data + b.data;
    assert ([j] + rest)[1..] == rest && ([a] + ([b] + rest))[1..] == [b] + rest && ([b] + rest)[1..] == rest;
  }

  lemma {:induction false} GapsSpread(m: seq<Req>, i: nat, j: nat)
    requires Gaps(m) && i < j < |m|
    ensures End(m[i]) < m[j].sector
    decreases j
  {
    if i + 1 < j { GapsSpread(m, i, j - 1); }
  }

  lemma SortedSizesExact(rs: seq<Req>, sorted: seq<Req>)
    requires 0 < |rs| && AllWellFormed(rs) && NonEmpty(rs) && Permutation(rs, sorted) && Sorted(sorted)
    requires 0 < |sorted|
    ensures AllWellFormed(MergeAll(sorted)) <==> Disjoint(rs)
  {
    PermutedAll(rs, sorted);
    var rest := sorted[1..];
    assert sorted == [sorted[0]] + rest;
    MergeWellFormed(sorted[0], rest);
    if Disjoint(rs) { PermutedDisjoint(rs, sorted); }
    if Disjoint(sorted) { PermutedDisjoint(sorted, rs); }
  }

  lemma GapsDisjoint(m: seq<Req>)
    requires Gaps(m)
    ensures Disjoint(m)
  {
    forall i, j | 0 <= i < j < |m|
      ensures !Overlap(m[i], m[j])
    {
      GapsSpread(m, i, j);
    }
  }

  /** Two orders of the same disjoint writes leave the same disk. */
  lemma PermutedWrites(disk: Disk, a: seq<Req>, b: seq<Req>)
    requires Permutation(a, b) && Fits(a, |disk|) && Disjoint(a) && AllWellFormed(a) && NonEmpty(a)
    ensures Fits(b, |disk|) && WriteAll(disk, b) == WriteAll(disk, a)
  {
    PermutedFits(a, b, |disk|);
    PermutedAll(a, b);
    PermutedDisjoint(a, b);
    hide Fits, Disjoint, AllWellFormed, NonEmpty, WriteAll, At;
    forall x | 0 <= x < |disk| ensures WriteAll(disk, b)[x] == WriteAll(disk, a)[x] {
      PermutedAt(a, b, x, disk[x]);
      WriteAllAt(disk, a, x);
      WriteAllAt(disk, b, x);
    }
  }

  lemma MergedFacts(sorted: seq<Req>, size: nat)
    requires 0 < |sorted| && Sorted(sorted) && AllWellFormed(sorted) && NonEmpty(sorted) && Disjoint(sorted)
    requires Fits(sorted, size)
    ensures Ready(sorted[0], sorted[1..]) && sorted == [sorted[0]] + sorted[1..]
    ensures MergeAll(sorted) == Merge(sorted[0], sorted[1..])
    ensures var m := MergeAll(sorted); Gaps(m) && AllWellFormed(m) && NonEmpty(m) && Fits(m, size) && Disjoint(m)
  {
    var first, rest := sorted[0], sorted[1..];
    assert sorted == [first] + rest;
    assert Ready(first, rest);
    assert AllWellFormed(rest) && NonEmpty(rest) && WellFormed(first) && 0 < first.nb;
    MergeWellFormed(first, rest);
    hide Ready, Fits, Disjoint, AllWellFormed, NonEmpty, Merge, Gaps;
    MergeShape(first, rest, size);
    GapsDisjoint(MergeAll(sorted));
  }

  lemma SortedMergeWrites(disk: Disk, sorted: seq<Req>)
    requires 0 < |sorted| && Sorted(sorted) && AllWellFormed(sorted) && NonEmpty(sorted) && Disjoint(sorted)
    requires Fits(sorted, |disk|)
    ensures var m := MergeAll(sorted);
      Gaps(m) && AllWellFormed(m) && NonEmpty(m) && Fits(m, |disk|) && WriteAll(disk, m) == WriteAll(disk, sorted)
  {
    hide Fits, Disjoint, AllWellFormed, NonEmpty, WriteAll, At, Merge, MergeAll, Ready, Gaps, Sorted;
    MergedFacts(sorted, |disk|);
    var m := MergeAll(sorted);
    forall x | 0 <= x < |disk| ensures WriteAll(disk, m)[x] == WriteAll(disk, sorted)[x] {
      MergeMeaning(sorted[0], sorted[1..], x, disk[x]);
      WriteAllAt(disk, m, x);
      WriteAllAt(disk, sorted, x);
    }
  }

  lemma SortedMergePreservesMeaning(disk: Disk, rs: seq<Req>, sorted: seq<Req>, order: seq<Req>)
    requires 0 < |rs| && AllWellFormed(rs) && NonEmpty(rs) && Disjoint(rs) && Fits(rs, |disk|)
    requires Permutation(rs, sorted) && Sorted(sorted) && 0 < |sorted|
    requires Permutation(MergeAll(sorted), order)
    ensures Gaps(MergeAll(sorted)) && AllWellFormed(MergeAll(sorted))
    ensures Fits(order, |disk|) && WriteAll(disk, order) == WriteAll(disk, rs)
  {
    PermutedAll(rs, sorted);
    PermutedDisjoint(rs, sorted);
    PermutedWrites(disk, rs, sorted);
    SortedMergeWrites(disk, sorted);
    GapsDisjoint(MergeAll(sorted));
    hide *;
    PermutedWrites(disk, MergeAll(sorted), order);
  }

  lemma PermutedFits(a: seq<Req>, b: seq<Req>, size: nat)
    requires Permutation(a, b) && Fits(a, size)
    ensures Fits(b, size)
  {
    forall i | 0 <= i < |b|
      ensures Offset(b[i]) + |b[i].data| <= size
    {
      assert b[i] in multiset(b);
      assert b[i] in multiset(a);
    }
  }

  // ---------- the order ----------

  /** Conversion of a 64-bit difference to the 32-bit int a comparator returns. */
  function ToInt32(d: int): (r: int)
    ensures -0x8000_0000 <= r < 0x8000_0000
    ensures -0x8000_0000 <= d < 0x8000_0000 ==> r == d
  {
    (d + 0x8000_0000) % 0x1_0000_0000 - 0x8000_0000
  }

  /** multiwrite_req_compare. */
  function Compare(a: Req, b: Req): int { ToInt32(a.sector - b.sector) }

  /** The comparator tells the two apart as it should, whichever way round it is asked. */
  predicate ComparesRight(a: Req, b: Req) {
    (Compare(a, b) <= 0 <==> a.sector <= b.sector) && (Compare(b, a) <= 0 <==> b.sector <= a.sector)
  }

  /** That is so exactly if the low 32 bits of the distance, as a signed number, are positive. */
  lemma ComparesRightExact(a: Req, b: Req)
    ensures ComparesRight(a, b) <==>
            a.sector == b.sector ||
            0 < (if a.sector < b.sector then b.sector - a.sector else a.sector - b.sector) % 0x1_0000_0000 < 0x8000_0000
  {
    var d := if a.sector < b.sector then b.sector - a.sector else a.sector - b.sector;
    var q, r := d / 0x1_0000_0000, d % 0x1_0000_0000;
    assert d == 0x1_0000_0000 * q + r;
    Wraps(r, q);
    Wraps(-r, -q);
  }

  lemma Wraps(r: int, q: int)
    ensures ToInt32(0x1_0000_0000 * q + r) == ToInt32(r)
  {
    var x := r + 0x8000_0000;
    assert (0x1_0000_0000 * q + x) % 0x1_0000_0000 == x % 0x1_0000_0000;
  }

  /** Two requests a little over 2^31 sectors apart compare the wrong way round: the later comes first. */
  lemma MisorderedPair(sector: nat)
    ensures var a, b := Req(sector, 1, []), Req(sector + 0x8000_0001, 1, []);
      Compare(a, b) > 0 && Compare(b, a) < 0 && Ordered([b, a]) && !Sorted([b, a])
  {
    var a, b := Req(sector, 1, []), Req(sector + 0x8000_0001, 1, []);
    assert [b, a][0].sector > [b, a][1].sector;
  }

  /** On devices of less than 2^32 sectors: exactly if the distance fits an int. */
  lemma CompareIsOrder(a: Req, b: Req)
    requires -0x1_0000_0000 < a.sector - b.sector < 0x1_0000_0000
    ensures ComparesRight(a, b) <==> -0x8000_0000 < a.sector - b.sector < 0x8000_0000
  {
    ComparesRightExact(a, b);
  }

  /** All pairs of the list are compared right. */
  predicate Comparable(rs: seq<Req>) {
    forall i, j :: 0 <= i < |rs| && 0 <= j < |rs| ==> ComparesRight(rs[i], rs[j])
  }

  /** What qsort leaves: no two neighbours are the wrong way round for the comparator. */
  predicate Ordered(rs: seq<Req>) {
    forall i :: 0 <= i < |rs| - 1 ==> Compare(rs[i], rs[i + 1]) <= 0
  }

  /** A list that the comparator finds in order is sorted, if it compares the list right. */
  lemma {:induction false} OrderedIsSorted(rs: seq<Req>)
    requires Comparable(rs) && Ordered(rs)
    ensures Sorted(rs)
  {
    if |rs| > 1 {
      var n := |rs| - 1;
      hide ComparesRight, Compare;
      OrderedIsSorted(rs[..n]);
      assert Compare(rs[n - 1], rs[n - 1 + 1]) <= 0;
      NeighbourOrder(rs[n - 1], rs[n]);
      forall i | 0 <= i < n ensures rs[i].sector <= rs[n].sector {
        assert rs[..n][i].sector <= rs[..n][n - 1].sector;
      }
      assert forall i, j :: 0 <= i < j < n ==> rs[..n][i].sector <= rs[..n][j].sector;
    }
  }

  lemma NeighbourOrder(a: Req, b: Req)
    requires ComparesRight(a, b) && Compare(a, b) <= 0
    ensures a.sector <= b.sector
  {}

  lemma PermutedComparable(a: seq<Req>, b: seq<Req>)
    requires Permutation(a, b) && Comparable(a)
    ensures Comparable(b)
  {
    forall i, j | 0 <= i < |b| && 0 <= j < |b| ensures ComparesRight(b[i], b[j]) {
      assert b[i] in multiset(b) && b[j] in multiset(b);
      assert b[i] in multiset(a) && b[j] in multiset(a);
    }
  }

  lemma PermutedLength(a: seq<Req>, b: seq<Req>)
    requires Permutation(a, b)
    ensures |a| == |b|
  {
    assert |multiset(a)| == |multiset(b)|;
  }

  /** The merging pass on the requests as they come out of the sort. */
  function MergeOrdered(rs: seq<Req>, sorted: seq<Req>): (m: seq<Req>)
    requires 0 < |rs| && Comparable(rs) && Permutation(rs, sorted) && Ordered(sorted)
  {
    PermutedLength(rs, sorted);
    PermutedComparable(rs, sorted);
    OrderedIsSorted(sorted);
    MergeAll(sorted)
  }

  /** The main result.  For every list of non-empty, well-formed requests that the comparator compares
      right, in whatever order it sorts them, the merged requests all have vectors of the promised
      size exactly when the requests are pairwise disjoint. */
  lemma MergedSizesExact(rs: seq<Req>, sorted: seq<Req>)
    requires 0 < |rs| && AllWellFormed(rs) && NonEmpty(rs)
    requires Comparable(rs) && Permutation(rs, sorted) && Ordered(sorted)
    ensures AllWellFormed(MergeOrdered(rs, sorted)) <==> Disjoint(rs)
  {
    PermutedLength(rs, sorted);
    PermutedComparable(rs, sorted);
    OrderedIsSorted(sorted);
    SortedSizesExact(rs, sorted);
  }

  /** For pairwise disjoint requests, the merged ones, completing in any order, leave the same disk as
      the original ones completing in any order; they are sorted with a gap between neighbours. */
  lemma MergingPreservesMeaning(disk: Disk, rs: seq<Req>, sorted: seq<Req>, order: seq<Req>)
    requires 0 < |rs| && AllWellFormed(rs) && NonEmpty(rs) && Disjoint(rs) && Fits(rs, |disk|)
    requires Comparable(rs) && Permutation(rs, sorted) && Ordered(sorted)
    requires Permutation(MergeOrdered(rs, sorted), order)
    ensures Gaps(MergeOrdered(rs, sorted)) && AllWellFormed(MergeOrdered(rs, sorted))
    ensures Fits(order, |disk|) && WriteAll(disk, order) == WriteAll(disk, rs)
  {
    PermutedLength(rs, sorted);
    PermutedComparable(rs, sorted);
    OrderedIsSorted(sorted);
    SortedMergePreservesMeaning(disk, rs, sorted, order);
  }

  lemma WriteOne(disk: Disk, a: Req)
    requires Fits([a], |disk|)
    ensures Offset(a) + |a.data| <= |disk| && WriteAll(disk, [a]) == Write(disk, a)
  {
    assert [a][0] == a && [a][1..] == [];
    assert WriteAll(Write(disk, a), []) == Write(disk, a);
  }

  lemma WriteTwo(disk: Disk, a: Req, b: Req)
    requires Fits([a, b], |disk|)
    ensures Offset(a) + |a.data| <= |disk| && Offset(b) + |b.data| <= |disk|
    ensures WriteAll(disk, [a, b]) == Write(Write(disk, a), b)
  {
    assert [a, b][0] == a && [a, b][1] == b && [a, b][1..] == [b];
    assert Fits([b], |disk|);
    WriteOne(Write(disk, a), b);
  }

  lemma MergeTwo(a: Req, b: Req)
    requires a.sector <= b.sector
    ensures Sorted([a, b]) && MergeAll([a, b]) == if b.sector <= End(a) then [Join(a, b)] else [a, b]
  {
    assert [a, b][0] == a && [a, b][1..] == [b] && [b][1..] == [] && Sorted([b]);
    MergeUnfolds(a, [b]);
    MergeNothing(Join(a, b));
    MergeNothing(b);
    assert [a] + [b] == [a, b];
  }

  /** What merging two requests that touch or overlap loses: everything of the first behind the end of
      the second. */
  lemma MergedPairExact(disk: Disk, a: Req, b: Req)
    requires WellFormed(a) && WellFormed(b) && a.sector <= b.sector && Fits([a, b], |disk|)
    ensures Sorted([a, b]) && Fits(MergeAll([a, b]), |disk|)
    ensures WriteAll(disk, MergeAll([a, b])) == WriteAll(disk, [a, b]) <==>
            forall x :: SECTOR_SIZE * End(b) <= x < SECTOR_SIZE * End(a) ==> a.data[x - Offset(a)] == disk[x]
  {
    MergeTwo(a, b);
    WriteTwo(disk, a, b);
    if b.sector <= End(a) {
      JoinedPair(disk, a, b);
      hide Join, Merge, MergeAll, Write, WriteAll;
      WriteOne(disk, Join(a, b));
    }
  }

  /** The data of a joined request: that of the first up to the second, then that of the second. */
  lemma JoinedData(a: Req, b: Req, x: nat)
    requires WellFormed(a) && WellFormed(b) && a.sector <= b.sector <= End(a)
    ensures Offset(Join(a, b)) == Offset(a) <= Offset(b) && Offset(b) + |b.data| == SECTOR_SIZE * End(b)
    ensures Offset(Join(a, b)) + |Join(a, b).data| == SECTOR_SIZE * End(b)
    ensures Offset(a) + |a.data| == SECTOR_SIZE * End(a) >= Offset(b)
    ensures Covers(Join(a, b), x) ==>
            Join(a, b).data[x - Offset(a)] == if Covers(b, x) then b.data[x - Offset(b)] else a.data[x - Offset(a)]
  {
    var k := Offset(b) - Offset(a);
    assert k <= |a.data| && Join(a, b).data == a.data[..k] + b.data;
  }

  /** Where the joined request differs from the two it was made of. */
  lemma JoinedByte(disk: Disk, a: Req, b: Req, x: nat)
    requires WellFormed(a) && WellFormed(b) && a.sector <= b.sector <= End(a) && x < |disk|
    requires Offset(a) + |a.data| <= |disk| && Offset(b) + |b.data| <= |disk|
    ensures Offset(Join(a, b)) + |Join(a, b).data| == SECTOR_SIZE * End(b)
    ensures Write(disk, Join(a, b))[x] ==
            if SECTOR_SIZE * End(b) <= x < SECTOR_SIZE * End(a) then disk[x] else Write(Write(disk, a), b)[x]
    ensures SECTOR_SIZE * End(b) <= x < SECTOR_SIZE * End(a) ==>
            Write(Write(disk, a), b)[x] == a.data[x - Offset(a)]
  {
    JoinedData(a, b, x);
    var one := Write(disk, a);
    var two := Write(one, b);
    assert one[x] == if Covers(a, x) then a.data[x - Offset(a)] else disk[x];
    assert two[x] == if Covers(b, x) then b.data[x - Offset(b)] else one[x];
    hide Join, Write, End, WellFormed;
  }

  lemma JoinedPair(disk: Disk, a: Req, b: Req)
    requires WellFormed(a) && WellFormed(b) && a.sector <= b.sector <= End(a)
    requires Offset(a) + |a.data| <= |disk| && Offset(b) + |b.data| <= |disk|
    ensures Offset(Join(a, b)) + |Join(a, b).data| == SECTOR_SIZE * End(b)
    ensures Write(disk, Join(a, b)) == Write(Write(disk, a), b) <==>
            forall x :: SECTOR_SIZE * End(b) <= x < SECTOR_SIZE * End(a) ==> a.data[x - Offset(a)] == disk[x]
  {
    assert |Join(a, b).data| == Offset(b) - Offset(a) + |b.data|;
    var one, both := Write(disk, Join(a, b)), Write(Write(disk, a), b);
    var low, high := SECTOR_SIZE * End(b), SECTOR_SIZE * End(a);
    assert high <= |disk|;
    forall x | 0 <= x < |disk|
      ensures one[x] == if low <= x < high then disk[x] else both[x]
      ensures low <= x < high ==> both[x] == a.data[x - Offset(a)]
    {
      JoinedByte(disk, a, b, x);
    }
    hide Write, Join;
    if forall x :: low <= x < high ==> a.data[x - Offset(a)] == disk[x] { assert one == both; }
  }

  // ---------- the pass over the array ----------

  /** A request as the array holds it. */
  datatype Request = Request(sector: nat, nb: nat, qiov: Qiov)

  function View(r: Request): Req { Req(r.sector, r.nb, Data(r.qiov)) }

  function Views(rs: seq<Request>): (v: seq<Req>)
    ensures |v| == |rs| && forall k :: 0 <= k < |rs| ==> v[k] == View(rs[k])
  {
    seq(|rs|, k requires 0 <= k < |rs| => View(rs[k]))
  }

  predicate ValidRequests(rs: seq<Request>) {
    forall k :: 0 <= k < |rs| ==> Valid(rs[k].qiov)
  }

  /** A new vector of the first size bytes of one and all of another. */
  method JoinVectors(a: Qiov, b: Qiov, size: nat) returns (q: Qiov)
    requires Valid(a) && Valid(b)
    ensures Valid(q) && Data(q) == Take(Data(a), size) + Data(b)
  {
    q := Qiov([], 0);
    q := Concat(q, a, size);
    assert Data(q) == Take(Data(a), size);
    q := Concat(q, b, b.size);
    assert Take(Data(b), b.size) == Data(b);
  }

  /** Replaces the request in hand by its union with request i. */
  method JoinInto(reqs: array<Request>, outidx: nat, i: nat)
    requires outidx < i < reqs.Length && Valid(reqs[outidx].qiov) && Valid(reqs[i].qiov)
    requires reqs[outidx].sector <= reqs[i].sector
    modifies reqs
    ensures View(reqs[outidx]) == Join(old(View(reqs[outidx])), old(View(reqs[i]))) && Valid(reqs[outidx].qiov)
    ensures forall k :: 0 <= k < reqs.Length && k != outidx ==> reqs[k] == old(reqs[k])
  {
    hide Data, Take, Valid;
    var size := (reqs[i].sector - reqs[outidx].sector) * SECTOR_SIZE;
    var qiov := JoinVectors(reqs[outidx].qiov, reqs[i].qiov, size);
    reqs[outidx] := Request(reqs[outidx].sector, reqs[outidx].nb + reqs[i].nb, qiov);
  }

  /** Where the pass stands: done has been kept, entry outidx is in hand, entries from i on are as
      they were, and what is done so far plus what is still to come is the result. */
  predicate Passing(a: seq<Request>, views: seq<Req>, done: seq<Req>, outidx: nat, i: nat) {
    && 0 <= outidx < i <= |a| == |views| && |done| == outidx && ValidRequests(a)
    && (forall k :: 0 <= k < outidx ==> View(a[k]) == done[k])
    && (forall k :: i <= k < |a| ==> View(a[k]) == views[k])
    && 0 < |views| && Sorted(views)
    && MergeFits(views, i, View(a[outidx]))
    && MergeAll(views) == done + Merge(View(a[outidx]), views[i..])
  }

  lemma PassJoin(a: seq<Request>, r: Request, views: seq<Req>, done: seq<Req>, outidx: nat, i: nat)
    requires Passing(a, views, done, outidx, i) && i < |a| && views[i].sector <= End(View(a[outidx]))
    requires Valid(r.qiov) && View(a[outidx]).sector <= views[i].sector && View(r) == Join(View(a[outidx]), views[i])
    ensures Passing(a[outidx := r], views, done, outidx, i + 1)
  {
    hide Join, Merge;
    MergeStep(views, i, View(a[outidx]), done);
  }

  lemma PassKeep(a: seq<Request>, views: seq<Req>, done: seq<Req>, outidx: nat, i: nat)
    requires Passing(a, views, done, outidx, i) && i < |a| && views[i].sector > End(View(a[outidx]))
    ensures Passing(a[outidx + 1 := a[i]], views, done + [View(a[outidx])], outidx + 1, i + 1)
  {
    hide Join, Merge;
    MergeStep(views, i, View(a[outidx]), done);
  }

  /** multiwrite_merge after the sort, without a driver that asks for gaps to be filled: the merged
      requests end up in the first entries of the array. */
  method MergeRequests(reqs: array<Request>, num: nat) returns (remaining: nat)
    requires 0 < num <= reqs.Length && ValidRequests(reqs[..num]) && Sorted(Views(reqs[..num]))
    modifies reqs
    ensures remaining <= num && Views(reqs[..remaining]) == MergeAll(Views(old(reqs[..num])))
    ensures ValidRequests(reqs[..remaining])
  {
    hide Join, Merge, MergeAll, Sorted;
    ghost var views, done := Views(reqs[..num]), [];
    MergeStart(views);
    var outidx, i := 0, 1;
    while i < num
      invariant 0 <= outidx < i <= num
      invariant Passing(reqs[..num], views, done, outidx, i)
    {
      ghost var a := reqs[..num];
      MergeStep(views, i, View(a[outidx]), done);
      assert a[i] == reqs[i] && a[outidx] == reqs[outidx];
      var oldLast := reqs[outidx].sector + reqs[outidx].nb;
      if reqs[i].sector <= oldLast {
        JoinInto(reqs, outidx, i);
        PassJoin(a, reqs[outidx], views, done, outidx, i);
        assert reqs[..num] == a[outidx := reqs[outidx]];
      } else {
        PassKeep(a, views, done, outidx, i);
        done := done + [View(a[outidx])];
        outidx := outidx + 1;
        reqs[outidx] := Request(reqs[i].sector, reqs[i].nb, reqs[i].qiov);
        assert reqs[..num] == a[outidx := a[i]];
      }
      i := i + 1;
    }
    PassEnd(reqs[..num], views, done, outidx);
    assert reqs[..num][..outidx + 1] == reqs[..outidx + 1];
    return outidx + 1;
  }

  lemma PassEnd(a: seq<Request>, views: seq<Req>, done: seq<Req>, outidx: nat)
    requires Passing(a, views, done, outidx, |a|)
    ensures Views(a[..outidx + 1]) == MergeAll(views) && ValidRequests(a[..outidx + 1])
  {
    assert views[|a|..] == [];
    MergeNothing(View(a[outidx]));
    assert Views(a[..outidx + 1]) == done + [View(a[outidx])];
  }

  lemma MergeStep(views: seq<Req>, i: nat, cur: Req, done: seq<Req>)
    requires i < |views| && MergeFits(views, i, cur)
    ensures cur.sector <= views[i].sector
    ensures var b := views[i];
            var cur' := if b.sector <= End(cur) then Join(cur, b) else b;
            && MergeFits(views, i + 1, cur')
            && done + Merge(cur, views[i..]) ==
                 (if b.sector <= End(cur) then done else done + [cur]) + Merge(cur', views[i + 1..])
  {
    var b := views[i];
    var here, tail := views[i..], views[i + 1..];
    assert here[0] == b && here[1..] == tail;
    assert forall k :: 0 <= k < |tail| ==> tail[k] == here[k + 1];
    if b.sector > End(cur) {
      Regroup(done, cur, Merge(b, views[i + 1..]));
    }
  }

  lemma MergeStart(views: seq<Req>)
    requires 0 < |views| && Sorted(views)
    ensures MergeFits(views, 1, views[0]) && MergeAll(views) == [] + Merge(views[0], views[1..])
  {}

  lemma MergeNothing(cur: Req)
    ensures Merge(cur, []) == [cur]
  {}

  /** The rest of the sorted requests starts no earlier than the one in hand. */
  predicate MergeFits(views: seq<Req>, i: nat, cur: Req)
    requires i <= |views|
  {
    (forall k :: 0 <= k < |views[i..]| ==> cur.sector <= views[i..][k].sector) && Sorted(views[i..])
  }
}
