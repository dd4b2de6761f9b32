/** Reading the region list: empty regions are dropped, and a region inside an earlier one is refused. */
module PageInput {
  import opened PageEntries
  import opened PageRegions

  /** Start and size are 32-bit fields. */
  predicate Readable(r: Region) {
    r.start < FOUR_GB && r.size < FOUR_GB
  }

  ghost predicate AllReadable(list: seq<Region>) {
    forall i | 0 <= i < |list| :: Readable(list[i])
  }

  function NonEmpty(list: seq<Region>): (rs: seq<Region>) {
    if list == [] then []
    else NonEmpty(list[..|list| - 1]) + if list[|list| - 1].size == 0 then [] else [list[|list| - 1]]
  }

  lemma {:induction false} NonEmptyOk(list: seq<Region>)
    requires AllReadable(list)
    ensures forall i | 0 <= i < |NonEmpty(list)| :: RegionOk(NonEmpty(list)[i])
  {
    if list != [] { NonEmptyOk(list[..|list| - 1]); }
  }

  lemma {:induction false} NonEmptyPrefix(list: seq<Region>, n: nat)
    requires n <= |list|
    ensures NonEmpty(list[..n]) <= NonEmpty(list)
  {
    if n == |list| {
      assert list[..n] == list;
    } else {
      assert list[..|list| - 1][..n] == list[..n];
      NonEmptyPrefix(list[..|list| - 1], n);
    }
  }

  /** The test made for a new region against an earlier one: both its ends lie in the earlier one. */
  predicate EndsIn(r: Region, s: Region) {
    && s.start <= r.start <= s.start + s.size
    && s.start <= r.start + r.size <= s.start + s.size
  }

  predicate Share(r: Region, s: Region, a: nat) {
    r.start <= a < r.start + r.size && s.start <= a < s.start + s.size
  }

  /** The test is for containment, and misses every other overlap. */
  lemma EndsInIff(r: Region, s: Region)
    requires r.size > 0
    ensures EndsIn(r, s) <==> forall a: nat | r.start <= a < r.start + r.size :: Share(r, s, a)
  {
    if forall a: nat | r.start <= a < r.start + r.size :: Share(r, s, a) {
      assert Share(r, s, r.start) && Share(r, s, r.start + r.size - 1);
    }
  }

  /** No region lies inside an earlier one. */
  ghost predicate NoneInside(rs: seq<Region>) {
    forall i, j | 0 <= i < j < |rs| :: !EndsIn(rs[j], rs[i])
  }

  /** Regions listed in both orders overlap undetected exactly when each has an address of its own. */
  lemma UndetectedIff(r: Region, s: Region)
    requires r.size > 0 && s.size > 0
    ensures NoneInside([r, s]) && NoneInside([s, r]) <==>
      && (exists a: nat :: r.start <= a < r.start + r.size && !Share(r, s, a))
      && (exists a: nat :: s.start <= a < s.start + s.size && !Share(s, r, a))
  {
    EndsInIff(r, s);
    EndsInIff(s, r);
    PairInside([r, s]);
    PairInside([s, r]);
  }

  lemma PairInside(rs: seq<Region>)
    requires |rs| == 2
    ensures NoneInside(rs) <==> !EndsIn(rs[1], rs[0])
  {
    if !EndsIn(rs[1], rs[0]) {
      forall i, j | 0 <= i < j < |rs| ensures !EndsIn(rs[j], rs[i]) {
        assert i == 0 && j == 1;
      }
    }
  }

  /** The inner loop: whether the region lies inside one of those read so far. */
  method InsideEarlier(r: Region, raw: seq<Region>) returns (b: bool)
    ensures b <==> exists i :: 0 <= i < |raw| && EndsIn(r, raw[i])
  {
    var i := 0;
    while i < |raw|
      invariant 0 <= i <= |raw| && forall k | 0 <= k < i :: !EndsIn(r, raw[k])
    {
      var last := raw[i].start + raw[i].size;
      if raw[i].start <= r.start <= last && raw[i].start <= r.start + r.size <= last {
        return true;
      }
      i := i + 1;
    }
    return false;
  }

  /** `read_mmu_list_marshal_param`, after the header: it stops at the first region inside an earlier
      one, and reports that there is one. */
  method ReadList(list: seq<Region>) returns (raw: seq<Region>, overlap: bool)
    requires AllReadable(list)
    ensures overlap <==> !NoneInside(NonEmpty(list))
    ensures raw <= NonEmpty(list) && (!overlap ==> raw == NonEmpty(list))
    ensures forall i | 0 <= i < |raw| :: RegionOk(raw[i])
  {
    raw := [];
    var n := 0;
    NonEmptyOk(list);
    while n < |list|
      invariant 0 <= n <= |list| && raw == NonEmpty(list[..n]) && NoneInside(raw)
    {
      var r := list[n];
      assert list[..n + 1][..n] == list[..n];
      NonEmptyPrefix(list, n);
      if r.size != 0 {
        var inside := InsideEarlier(r, raw);
        if inside {
          NonEmptyPrefix(list, n + 1);
          assert NonEmpty(list)[|raw|] == r;
          return raw, true;
        }
        raw := raw + [r];
      }
      n := n + 1;
    }
    assert list[..n] == list;
    return raw, false;
  }
}
