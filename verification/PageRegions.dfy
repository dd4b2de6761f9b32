/** Memory regions and the runs of page-table entries they are cut into, 4 KB page mode. */
module PageRegions {
  import opened PageEntries

  datatype Region = Region(start: nat, size: nat, perms: nat)

  /** Start and size are 32-bit fields, and empty regions have been dropped. */
  predicate RegionOk(r: Region) {
    r.start < FOUR_GB && 0 < r.size < FOUR_GB
  }

  /** Entries `first` to `last` of one page table. */
  datatype Pages = Pages(start: nat, size: nat, first: nat, last: nat, perms: nat)

  predicate Hit(t: Pages, pte: nat) {
    t.first <= pte <= t.last
  }

  function Pde(a: nat): (r: nat) { a / FOUR_MB % 1024 }

  function Pte(a: nat): (r: nat) { a / PAGE % 1024 }

  predicate Spills(r: Region) {
    r.size + Pte(r.start) * PAGE >= FOUR_MB
  }

  function FirstSize(r: Region): (n: nat)
    requires RegionOk(r)
    ensures n <= r.size
  {
    if Spills(r) then (1024 - Pte(r.start)) * PAGE else r.size
  }

  function FirstPages(r: Region): (t: Pages)
    requires RegionOk(r)
  {
    Pages(r.start, FirstSize(r), Pte(r.start), if Spills(r) then 1023 else Pte(r.start + r.size - 1), r.perms)
  }

  /** What is left of the region when page directory entry `d`, past the first, is reached. */
  function Left(r: Region, d: nat): (n: int)
    requires RegionOk(r)
  {
    r.size - FirstSize(r) - (d - Pde(r.start) - 1) * FOUR_MB
  }

  function ExtraPages(r: Region, d: nat): (t: Pages)
    requires RegionOk(r) && Left(r, d) > 0
  {
    if Left(r, d) >= FOUR_MB then Pages(d * FOUR_MB, FOUR_MB, 0, 1023, r.perms)
    else Pages(d * FOUR_MB, Left(r, d), 0, Pte(d * FOUR_MB + Left(r, d) - 1), r.perms)
  }

  /** The run, if any, that `r` gets in the page table of directory entry `d`. */
  function PieceAt(r: Region, d: nat): (ts: seq<Pages>)
    requires RegionOk(r)
    ensures |ts| <= 1
  {
    if d == Pde(r.start) then [FirstPages(r)]
    else if Pde(r.start) < d <= Pde(r.start + r.size) && Left(r, d) > 0 then [ExtraPages(r, d)]
    else []
  }

  // ---- what the runs cover

  /** `validate_pde_regions` on one run. */
  predicate PageAligned(t: Pages) {
    t.start % PAGE == 0 && t.size % PAGE == 0
  }

  ghost predicate AllAligned(r: Region)
    requires RegionOk(r)
  {
    forall d: nat :: PieceAt(r, d) != [] ==> PageAligned(PieceAt(r, d)[0])
  }

  /** Where the mapping of a region really ends: one that reaches 4 GB gets only the rest of the
      4 MB it starts in, because the last directory index wraps to a small number. */
  function End(r: Region): (e: nat) {
    if r.start + r.size < FOUR_GB then r.start + r.size else (r.start / FOUR_MB + 1) * FOUR_MB
  }

  predicate Covers(r: Region, a: nat) {
    r.start <= a < End(r)
  }

  lemma Decompose(a: nat)
    requires a < FOUR_GB
    ensures Pde(a) == a / FOUR_MB < 1024 && Pte(a) < 1024
    ensures a == a / FOUR_MB * FOUR_MB + Pte(a) * PAGE + a % PAGE
  {
  }

  /** Past 4 GB the last directory index is never beyond the first. */
  lemma NoExtraPastTop(r: Region)
    requires RegionOk(r) && r.start + r.size >= FOUR_GB
    ensures Pde(r.start + r.size) <= Pde(r.start)
  {
    Decompose(r.start);
    Decompose(r.start + r.size - FOUR_GB);
    assert (r.start + r.size) / FOUR_MB == 1024 + (r.start + r.size - FOUR_GB) / FOUR_MB;
  }

  /** Below 4 GB and on a page boundary, what is left at directory entry `d` is what lies above it. */
  lemma LeftIs(r: Region, d: nat)
    requires RegionOk(r) && Spills(r) && r.start % PAGE == 0
    ensures Left(r, d) == r.start + r.size - d * FOUR_MB
  {
    Decompose(r.start);
  }

  /** Past the first directory entry, a run exists for what still lies ahead of a region below 4 GB. */
  lemma ExtraIs(r: Region, d: nat)
    requires RegionOk(r) && r.start % PAGE == 0 && d > Pde(r.start)
    ensures PieceAt(r, d) != [] <==> r.start + r.size < FOUR_GB && d * FOUR_MB < r.start + r.size
    ensures PieceAt(r, d) != [] ==> Left(r, d) == r.start + r.size - d * FOUR_MB
  {
    Decompose(r.start);
    if r.start + r.size >= FOUR_GB {
      NoExtraPastTop(r);
    } else if Spills(r) {
      LeftIs(r, d);
      Decompose(r.start + r.size);
    }
  }

  lemma PartialRun(d: nat, left: nat, a: nat)
    requires 0 < left < FOUR_MB && left % PAGE == 0 && a / FOUR_MB == d < 1024
    ensures Pte(a) <= Pte(d * FOUR_MB + left - 1) <==> a < d * FOUR_MB + left
  {
    Decompose(a);
    Decompose(d * FOUR_MB + left - 1);
    assert (d * FOUR_MB + left - 1) / FOUR_MB == d;
  }

  lemma FirstHits(r: Region, a: nat)
    requires RegionOk(r) && AllAligned(r) && a < FOUR_GB && a / FOUR_MB == Pde(r.start)
    ensures Hit(FirstPages(r), Pte(a)) <==> Covers(r, a)
  {
    assert PageAligned(PieceAt(r, Pde(r.start))[0]);
    Decompose(r.start);
    StartsBefore(r.start, a);
    if Spills(r) {
      SpilledEnd(r, a);
    } else {
      UnspilledHits(r, a);
    }
  }

  lemma StartsBefore(s: nat, a: nat)
    requires s % PAGE == 0 && s < FOUR_GB && a < FOUR_GB && a / FOUR_MB == s / FOUR_MB
    ensures (Pte(s) <= Pte(a) <==> s <= a) && Pte(a) <= 1023
  {
    Decompose(s);
    Decompose(a);
  }

  lemma SpilledEnd(r: Region, a: nat)
    requires RegionOk(r) && Spills(r) && r.start % PAGE == 0 && a / FOUR_MB == r.start / FOUR_MB
    ensures a < End(r)
  {
    Decompose(r.start);
  }

  lemma UnspilledHits(r: Region, a: nat)
    requires RegionOk(r) && !Spills(r) && r.start % PAGE == 0 && r.size % PAGE == 0
    requires a < FOUR_GB && a / FOUR_MB == r.start / FOUR_MB
    ensures Pte(a) <= Pte(r.start + r.size - 1) <==> a < End(r)
  {
    Decompose(r.start);
    var d, left := r.start / FOUR_MB, Pte(r.start) * PAGE + r.size;
    assert d * FOUR_MB + left == r.start + r.size;
    Multiples(Pte(r.start), 0, 0);
    PartialRun(d, left, a);
  }

  lemma ExtraHits(r: Region, a: nat)
    requires RegionOk(r) && AllAligned(r) && a < FOUR_GB && a / FOUR_MB > Pde(r.start)
    ensures (PieceAt(r, a / FOUR_MB) != [] && Hit(PieceAt(r, a / FOUR_MB)[0], Pte(a))) <==> Covers(r, a)
  {
    assert PageAligned(PieceAt(r, Pde(r.start))[0]);
    var d := a / FOUR_MB;
    ExtraIs(r, d);
    if PieceAt(r, d) != [] {
      assert PageAligned(PieceAt(r, d)[0]);
      if Left(r, d) < FOUR_MB { PartialRun(d, Left(r, d), a); }
    } else {
      Decompose(r.start);
    }
  }

  /** An address is in a run of its page table exactly when the region covers it. */
  lemma PieceHits(r: Region, a: nat)
    requires RegionOk(r) && AllAligned(r) && a < FOUR_GB
    ensures (PieceAt(r, a / FOUR_MB) != [] && Hit(PieceAt(r, a / FOUR_MB)[0], Pte(a))) <==> Covers(r, a)
  {
    Decompose(r.start);
    if a / FOUR_MB == Pde(r.start) {
      FirstHits(r, a);
    } else if a / FOUR_MB > Pde(r.start) {
      ExtraHits(r, a);
    }
  }

  /** An address that the region asks for. */
  predicate Requested(r: Region, a: nat) {
    r.start <= a < r.start + r.size && a < FOUR_GB
  }

  /** The region's runs include the page-table entry of the address. */
  predicate Mapped(r: Region, a: nat)
    requires RegionOk(r)
  {
    PieceAt(r, a / FOUR_MB) != [] && Hit(PieceAt(r, a / FOUR_MB)[0], Pte(a))
  }

  lemma MappedIff(r: Region, a: nat)
    requires RegionOk(r) && AllAligned(r) && a < FOUR_GB
    ensures Mapped(r, a) <==> Covers(r, a)
  {
    PieceHits(r, a);
  }

  /** The region ends below 4 GB or starts in the last 4 MB. */
  predicate EndFits(r: Region) {
    r.start + r.size < FOUR_GB || r.start >= FOUR_GB - FOUR_MB
  }

  /** The runs reach every address asked for exactly when the end fits. */
  lemma MappedToEndIff(r: Region)
    requires RegionOk(r) && AllAligned(r)
    ensures (forall a: nat | Requested(r, a) :: Mapped(r, a)) <==> EndFits(r)
  {
    forall a: nat | a < FOUR_GB ensures Mapped(r, a) <==> Covers(r, a) {
      MappedIff(r, a);
    }
    CoversToEndIff(r);
  }

  lemma CoversToEndIff(r: Region)
    requires RegionOk(r)
    ensures (forall a: nat | Requested(r, a) :: Covers(r, a)) <==> EndFits(r)
  {
    if !EndFits(r) {
      assert Requested(r, FOUR_GB - 1) && !Covers(r, FOUR_GB - 1);
    }
  }

  predicate Touches(r: Region, d: nat) {
    r.start < (d + 1) * FOUR_MB && d * FOUR_MB < End(r)
  }

  lemma PieceTouches(r: Region, d: nat)
    requires RegionOk(r) && AllAligned(r)
    ensures PieceAt(r, d) != [] <==> Touches(r, d)
    ensures Touches(r, d) ==> d < 1024
  {
    assert PageAligned(PieceAt(r, Pde(r.start))[0]);
    Decompose(r.start);
    if r.start + r.size >= FOUR_GB {
      NoExtraPastTop(r);
    } else {
      Decompose(r.start + r.size);
      if Spills(r) {
        LeftIs(r, d);
      }
    }
  }

  lemma AlignedThenSize(r: Region)
    requires RegionOk(r) && AllAligned(r)
    ensures r.start % PAGE == 0 && (r.start + r.size < FOUR_GB ==> r.size % PAGE == 0)
  {
    assert PageAligned(PieceAt(r, Pde(r.start))[0]);
    if r.start + r.size < FOUR_GB && Spills(r) {
      var d := (r.start + r.size - 1) / FOUR_MB;
      LeftIs(r, d);
      Decompose(r.start);
      if d > Pde(r.start) {
        assert PageAligned(PieceAt(r, d)[0]);
        SizeFromRest(r, d);
      }
    }
  }

  lemma SizeFromRest(r: Region, d: nat)
    requires r.start % PAGE == 0 && (r.start + r.size - d * FOUR_MB) % PAGE == 0
    ensures r.size % PAGE == 0
  {
    assert d * FOUR_MB == d * 1024 * PAGE;
  }

  lemma Multiples(n: int, d: int, x: int)
    requires x % PAGE == 0
    ensures n * PAGE % PAGE == 0 && d * FOUR_MB % PAGE == 0 && (x - d * FOUR_MB) % PAGE == 0
  {
    assert d * FOUR_MB == d * 1024 * PAGE;
  }

  lemma TopSpills(r: Region)
    requires RegionOk(r) && r.start % PAGE == 0 && r.start + r.size >= FOUR_GB
    ensures Spills(r)
  {
    Decompose(r.start);
  }

  lemma FirstAligned(r: Region)
    requires RegionOk(r) && r.start % PAGE == 0 && (r.start + r.size < FOUR_GB ==> r.size % PAGE == 0)
    ensures PageAligned(FirstPages(r))
  {
    Multiples(1024 - Pte(r.start), 0, 0);
    if r.start + r.size >= FOUR_GB { TopSpills(r); }
  }

  lemma ExtraAligned(r: Region, d: nat)
    requires RegionOk(r) && r.start % PAGE == 0 && (r.start + r.size < FOUR_GB ==> r.size % PAGE == 0)
    requires d != Pde(r.start) && PieceAt(r, d) != []
    ensures Left(r, d) > 0 && PageAligned(ExtraPages(r, d))
  {
    ExtraIs(r, d);
    SumAligned(r.start, r.size);
    Multiples(0, d, r.start + r.size);
    assert Left(r, d) % PAGE == 0;
  }

  lemma SumAligned(a: nat, b: nat)
    requires a % PAGE == 0 && b % PAGE == 0
    ensures (a + b) % PAGE == 0
  {
  }

  lemma SizeThenAligned(r: Region, d: nat)
    requires RegionOk(r) && r.start % PAGE == 0 && (r.start + r.size < FOUR_GB ==> r.size % PAGE == 0)
    requires PieceAt(r, d) != []
    ensures PageAligned(PieceAt(r, d)[0])
  {
    if d == Pde(r.start) {
      FirstAligned(r);
    } else {
      ExtraAligned(r, d);
    }
  }

  /** Exactly when validation passes: the start is on a page boundary, and so is the size of a region
      that ends below 4 GB. */
  lemma AlignedIff(r: Region)
    requires RegionOk(r)
    ensures AllAligned(r) <==> r.start % PAGE == 0 && (r.start + r.size < FOUR_GB ==> r.size % PAGE == 0)
  {
    if AllAligned(r) {
      AlignedThenSize(r);
    } else if r.start % PAGE == 0 && (r.start + r.size < FOUR_GB ==> r.size % PAGE == 0) {
      forall d: nat | PieceAt(r, d) != [] ensures PageAligned(PieceAt(r, d)[0]) {
        SizeThenAligned(r, d);
      }
    }
  }

  // ---- lists of regions

  datatype Perms = NoPerms | HasPerms(perms: nat)

  /** The runs of directory entry `d`, in the order the regions are listed. */
  function Tuples(rs: seq<Region>, d: nat): (ts: seq<Pages>)
    requires forall i | 0 <= i < |rs| :: RegionOk(rs[i])
  {
    if rs == [] then [] else Tuples(rs[..|rs| - 1], d) + PieceAt(rs[|rs| - 1], d)
  }

  /** The permissions of the last run that contains an entry. */
  function LastHit(ts: seq<Pages>, pte: nat): (p: Perms) {
    if ts == [] then NoPerms
    else if Hit(ts[|ts| - 1], pte) then HasPerms(ts[|ts| - 1].perms)
    else LastHit(ts[..|ts| - 1], pte)
  }

  /** The permissions of the last listed region that covers an address. */
  function LastCovering(rs: seq<Region>, a: nat): (p: Perms) {
    if rs == [] then NoPerms
    else if Covers(rs[|rs| - 1], a) then HasPerms(rs[|rs| - 1].perms)
    else LastCovering(rs[..|rs| - 1], a)
  }

  /** The permissions of the first listed region that touches a 4 MB range. */
  function FirstTouching(rs: seq<Region>, d: nat): (p: Perms) {
    if rs == [] then NoPerms
    else if FirstTouching(rs[..|rs| - 1], d).HasPerms? then FirstTouching(rs[..|rs| - 1], d)
    else if Touches(rs[|rs| - 1], d) then HasPerms(rs[|rs| - 1].perms)
    else NoPerms
  }

  ghost predicate Sound(rs: seq<Region>) {
    forall i | 0 <= i < |rs| :: RegionOk(rs[i]) && AllAligned(rs[i])
  }

  lemma {:induction false} LastHitAppend(ts: seq<Pages>, us: seq<Pages>, pte: nat)
    requires |us| <= 1
    ensures LastHit(ts + us, pte)
         == if us != [] && Hit(us[0], pte) then HasPerms(us[0].perms) else LastHit(ts, pte)
  {
    if us == [] {
      assert ts + us == ts;
    } else {
      assert (ts + us)[..|ts + us| - 1] == ts && (ts + us)[|ts|] == us[0];
    }
  }

  lemma {:induction false} LastHitIsLastCovering(rs: seq<Region>, a: nat)
    requires Sound(rs) && a < FOUR_GB
    ensures LastHit(Tuples(rs, a / FOUR_MB), Pte(a)) == LastCovering(rs, a)
  {
    if rs != [] {
      var n, d := |rs| - 1, a / FOUR_MB;
      LastHitIsLastCovering(rs[..n], a);
      PieceHits(rs[n], a);
      LastHitAppend(Tuples(rs[..n], d), PieceAt(rs[n], d), Pte(a));
    }
  }

  lemma {:induction false} FirstTupleIsFirstTouching(rs: seq<Region>, d: nat)
    requires Sound(rs)
    ensures FirstTouching(rs, d) == if Tuples(rs, d) == [] then NoPerms else HasPerms(Tuples(rs, d)[0].perms)
    ensures Tuples(rs, d) != [] ==> d < 1024
  {
    if rs != [] {
      FirstTupleIsFirstTouching(rs[..|rs| - 1], d);
      PieceTouches(rs[|rs| - 1], d);
    }
  }
}
