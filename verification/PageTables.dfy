/** The generated page directory and page tables, and how the processor reads them: 32-bit paging
    with 4 KB pages, section 4.3 of the Intel 64 and IA-32 Architectures Software Developer's Manual,
    volume 3A. */
module PageTables {
  import opened PageEntries
  import opened PageRegions
  import opened Common

  function IndexOf(s: seq<nat>, x: nat): (i: nat)
    requires x in s
    ensures i < |s| && s[i] == x && x !in s[..i]
  {
    if s[0] == x then 0 else 1 + IndexOf(s[1..], x)
  }

  /** `address_of_page_table`: the page frame of table `i`, the directory being at `base`. */
  function Frame(base: nat, i: nat): (f: nat) {
    (base + PAGE + i * PAGE) / PAGE
  }

  /** A frame number says where the table is exactly when the directory is on a page boundary. */
  lemma FrameIsExactIff(base: nat, i: nat)
    ensures Frame(base, i) * PAGE == base + PAGE + i * PAGE <==> base % PAGE == 0
  {
  }

  /** Tables are listed once, for the directory entries that have runs. */
  ghost predicate Listed(tables: seq<nat>, rs: seq<Region>)
    requires forall i | 0 <= i < |rs| :: RegionOk(rs[i])
  {
    && (forall d: nat :: d in tables <==> Tuples(rs, d) != [])
    && (forall k | 0 <= k < |tables| :: tables[k] < 1024)
  }

  function DirectoryWord(base: nat, tables: seq<nat>, ts: seq<Pages>, d: nat): (w: nat)
    requires ts != [] ==> d in tables
  {
    if ts == [] then 0 else PdeValue(ts[0].perms, Frame(base, IndexOf(tables, d)))
  }

  function TableWord(ts: seq<Pages>, d: nat, pte: nat): (w: nat) {
    match LastHit(ts, pte)
    case NoPerms => 0
    case HasPerms(p) => PteValue(p, d, pte)
  }

  /** Entry `t` of the table in position `k`. */
  function Slot(out: seq<nat>, k: nat, t: nat): (w: nat)
    requires 1024 + 1024 * k + t < |out|
  {
    out[1024 + 1024 * k + t]
  }

  ghost predicate TableAt(out: seq<nat>, k: nat, ts: seq<Pages>, d: nat) {
    && 2048 + 1024 * k <= |out|
    && (forall t: nat | t < 1024 :: Slot(out, k, t) == TableWord(ts, d, t))
  }

  ghost predicate DirectoryAt(out: seq<nat>, base: nat, tables: seq<nat>, rs: seq<Region>)
    requires (forall i | 0 <= i < |rs| :: RegionOk(rs[i])) && Listed(tables, rs)
  {
    1024 <= |out| && forall d: nat | d < 1024 :: out[d] == DirectoryWord(base, tables, Tuples(rs, d), d)
  }

  /** The words of the output file: the directory, then one table after the other. */
  ghost predicate Image(out: seq<nat>, base: nat, tables: seq<nat>, rs: seq<Region>)
    requires (forall i | 0 <= i < |rs| :: RegionOk(rs[i])) && Listed(tables, rs)
  {
    && |out| == 1024 + 1024 * |tables|
    && DirectoryAt(out, base, tables, rs)
    && (forall k: nat | k < |tables| :: TableAt(out, k, Tuples(rs, tables[k]), tables[k]))
  }

  // ---- the processor

  /** The word at a physical address, when the image, loaded at `base`, holds it. */
  function Load(out: seq<nat>, base: nat, at: nat): (w: Option<nat>) {
    if base <= at && (at - base) % 4 == 0 && (at - base) / 4 < |out| then Some(out[(at - base) / 4]) else None
  }

  /** Reading outside the image, a fault, or a page with the rights of both levels. */
  datatype Access =
    | Outside
    | NotPresent
    | Present(physical: nat, writable: bool, user: bool, dirWritable: bool, dirUser: bool)

  function Leaf(pde: nat, pte: nat, a: nat): (r: Access) {
    if pte % 2 == 0 then NotPresent
    else Present(pte / PAGE * PAGE + a % PAGE, pte / 2 % 2 == 1, pte / 4 % 2 == 1, pde / 2 % 2 == 1, pde / 4 % 2 == 1)
  }

  function InTable(out: seq<nat>, base: nat, pde: nat, a: nat): (r: Access) {
    if pde % 2 == 0 then NotPresent
    else
      match Load(out, base, pde / PAGE * PAGE + 4 * (a / PAGE % 1024))
      case None => Outside
      case Some(pte) => Leaf(pde, pte, a)
  }

  function Walk(out: seq<nat>, base: nat, a: nat): (r: Access) {
    match Load(out, base, base + 4 * (a / FOUR_MB))
    case None => Outside
    case Some(pde) => InTable(out, base, pde, a)
  }

  /** What two entries with the given rights say, once the page entry is for the address's own page. */
  function Rights(p: Perms, q: nat, a: nat): (r: Access) {
    match p
    case NoPerms => NotPresent
    case HasPerms(p) =>
      Present(a, Bit(p, 1) == 1, Bit(p, 2) == 1, CheckBits(q, 1, 29) == 1, CheckBits(q, 2, 28) == 1)
  }

  /** What the region list asks for at address `a`. */
  function Asked(rs: seq<Region>, a: nat): (r: Access) {
    match FirstTouching(rs, a / FOUR_MB)
    case NoPerms => NotPresent
    case HasPerms(q) => Rights(LastCovering(rs, a), q, a)
  }

  /** The low bits of an entry do not depend on its frame. */
  lemma LowBits(low: nat, frame: nat)
    requires low < PAGE
    ensures var w := low + frame * PAGE;
      w % 2 == low % 2 && w / 2 % 2 == low / 2 % 2 && w / 4 % 2 == low / 4 % 2 && w / PAGE == frame
  {
    var w := low + frame * PAGE;
    Halved(low, 2048 * frame);
    Halved(low / 2, 1024 * frame);
    Halved(low / 4, 512 * frame);
    assert w / 2 == low / 2 + 2 * (1024 * frame);
    assert w / 4 == low / 4 + 2 * (512 * frame);
  }

  lemma Halved(low: nat, f: nat)
    ensures (low + 2 * f) % 2 == low % 2 && (low + 2 * f) / 2 == low / 2 + f
  {
  }

  lemma FlagBits(rw: nat, us: nat, extra: nat)
    requires rw < 2 && us < 2 && (extra == 0 || extra == 512)
    ensures var low := 1 + rw * 2 + us * 4 + extra; low % 2 == 1 && low / 2 % 2 == rw && low / 4 % 2 == us
  {
    if extra == 0 {
      if rw == 0 { assert us == 0 || us == 1; } else { assert us == 0 || us == 1; }
    }
  }

  /** The fields that the processor finds in an entry. */
  lemma EntryFields(w: nat, rw: nat, us: nat, extra: nat, frame: nat)
    requires rw < 2 && us < 2 && (extra == 0 || extra == 512)
    requires w == 1 + rw * 2 + us * 4 + extra + frame * PAGE
    ensures w % 2 == 1 && w / 2 % 2 == rw && w / 4 % 2 == us && w / PAGE == frame
  {
    LowBits(1 + rw * 2 + us * 4 + extra, frame);
    FlagBits(rw, us, extra);
  }

  lemma LoadTable(out: seq<nat>, base: nat, k: nat, t: nat, n: nat)
    requires base % PAGE == 0 && k < n && t < 1024 && |out| == 1024 + 1024 * n
    ensures Load(out, base, Frame(base, k) * PAGE + 4 * t) == Some(Slot(out, k, t))
  {
    var at := base + PAGE + k * PAGE + 4 * t;
    assert (at - base) / 4 == 1024 + 1024 * k + t;
  }

  lemma {:induction false} LeafIs(ts: seq<Pages>, q: nat, frame: nat, a: nat)
    requires a < FOUR_GB
    ensures Leaf(PdeValue(q, frame), TableWord(ts, a / FOUR_MB, Pte(a)), a) == Rights(LastHit(ts, Pte(a)), q, a)
    ensures PdeValue(q, frame) % 2 == 1 && PdeValue(q, frame) / PAGE == frame
  {
    var d, t := a / FOUR_MB, Pte(a);
    Decompose(a);
    PdeFields(q, frame);
    EntryFields(PdeValue(q, frame), CheckBits(q, 1, 29), CheckBits(q, 2, 28), 0, frame);
    if LastHit(ts, t).HasPerms? {
      var p := LastHit(ts, t).perms;
      PteFields(p, d, t);
      EntryFields(PteValue(p, d, t), Bit(p, 1), Bit(p, 2), 512, d * 1024 + t);
    }
  }

  lemma WalkWords(out: seq<nat>, base: nat, n: nat, k: nat, a: nat)
    requires base % PAGE == 0 && k < n && a < FOUR_GB && |out| == 1024 + 1024 * n
    requires out[a / FOUR_MB] % 2 == 1 && out[a / FOUR_MB] / PAGE == Frame(base, k)
    ensures Walk(out, base, a) == Leaf(out[a / FOUR_MB], Slot(out, k, Pte(a)), a)
  {
    LoadTable(out, base, k, Pte(a), n);
    LoadDirectory(out, base, a / FOUR_MB);
  }

  lemma LoadDirectory(out: seq<nat>, base: nat, d: nat)
    requires d < |out|
    ensures Load(out, base, base + 4 * d) == Some(out[d])
  {
  }

  lemma {:induction false} ImageWords(out: seq<nat>, base: nat, tables: seq<nat>, rs: seq<Region>, d: nat, t: nat)
    requires Sound(rs) && Listed(tables, rs) && Image(out, base, tables, rs)
    requires Tuples(rs, d) != [] && d < 1024 && t < 1024
    ensures var k := IndexOf(tables, d);
      && |out| == 1024 + 1024 * |tables|
      && out[d] == PdeValue(Tuples(rs, d)[0].perms, Frame(base, k))
      && Slot(out, k, t) == TableWord(Tuples(rs, d), d, t)
  {
    assert out[d] == DirectoryWord(base, tables, Tuples(rs, d), d);
    var k := IndexOf(tables, d);
    assert TableAt(out, k, Tuples(rs, tables[k]), tables[k]);
  }

  lemma {:induction false} WalkTable(out: seq<nat>, base: nat, tables: seq<nat>, rs: seq<Region>, a: nat)
    requires Sound(rs) && Listed(tables, rs) && Image(out, base, tables, rs) && base % PAGE == 0
    requires a < FOUR_GB && Tuples(rs, a / FOUR_MB) != []
    ensures Walk(out, base, a) == Rights(LastCovering(rs, a), Tuples(rs, a / FOUR_MB)[0].perms, a)
  {
    var d := a / FOUR_MB;
    var ts, k := Tuples(rs, d), IndexOf(tables, d);
    ImageWords(out, base, tables, rs, d, Pte(a));
    LeafIs(ts, ts[0].perms, Frame(base, k), a);
    WalkWords(out, base, |tables|, k, a);
    LastHitIsLastCovering(rs, a);
  }

  /** The generated tables mean what the region list says. Walking them from any address is present
      exactly when a region covers it, leads to the address itself, and gives it the rights of the last
      listed region that covers it, together with the directory's rights from the first listed
      region that touches its 4 MB. */
  lemma WalkIsAsked(out: seq<nat>, base: nat, tables: seq<nat>, rs: seq<Region>, a: nat)
    requires Sound(rs) && Listed(tables, rs) && Image(out, base, tables, rs) && base % PAGE == 0
    requires a < FOUR_GB
    ensures Walk(out, base, a) == Asked(rs, a)
  {
    var d := a / FOUR_MB;
    Decompose(a);
    FirstTupleIsFirstTouching(rs, d);
    if Tuples(rs, d) == [] {
      LastHitIsLastCovering(rs, a);
      assert out[d] == DirectoryWord(base, tables, Tuples(rs, d), d);
    } else {
      WalkTable(out, base, tables, rs, a);
    }
  }

  /** In particular: present exactly on the regions, and the identity there. */
  lemma PresentIffCovered(out: seq<nat>, base: nat, tables: seq<nat>, rs: seq<Region>, a: nat)
    requires Sound(rs) && Listed(tables, rs) && Image(out, base, tables, rs) && base % PAGE == 0
    requires a < FOUR_GB
    ensures Walk(out, base, a).Present? <==> exists i :: 0 <= i < |rs| && Covers(rs[i], a)
    ensures Walk(out, base, a).Present? ==> Walk(out, base, a).physical == a
    ensures Walk(out, base, a) != Outside
  {
    WalkIsAsked(out, base, tables, rs, a);
    CoveredIff(rs, a);
    if LastCovering(rs, a).HasPerms? { CoveredIsTouched(rs, a); }
  }

  /** A region on its own is present at every address asked for exactly when its end fits. */
  lemma WholeRegionIff(out: seq<nat>, base: nat, tables: seq<nat>, rs: seq<Region>)
    requires Sound(rs) && Listed(tables, rs) && Image(out, base, tables, rs) && base % PAGE == 0 && |rs| == 1
    ensures (forall a: nat | Requested(rs[0], a) :: Walk(out, base, a).Present?) <==> EndFits(rs[0])
  {
    forall a: nat | Requested(rs[0], a) ensures Walk(out, base, a).Present? <==> Covers(rs[0], a) {
      PresentIffOne(out, base, tables, rs, a);
    }
    CoversToEndIff(rs[0]);
  }

  lemma PresentIffOne(out: seq<nat>, base: nat, tables: seq<nat>, rs: seq<Region>, a: nat)
    requires Sound(rs) && Listed(tables, rs) && Image(out, base, tables, rs) && base % PAGE == 0 && |rs| == 1
    requires a < FOUR_GB
    ensures Walk(out, base, a).Present? <==> Covers(rs[0], a)
  {
    PresentIffCovered(out, base, tables, rs, a);
    OneCovers(rs, a);
  }

  lemma OneCovers(rs: seq<Region>, a: nat)
    requires |rs| == 1
    ensures (exists i :: 0 <= i < |rs| && Covers(rs[i], a)) <==> Covers(rs[0], a)
  {
  }

  /** The last 8 MB, asked for in one region, pass the checks and are not present at the end. */
  lemma TopRegionIsCut(out: seq<nat>, base: nat, tables: seq<nat>, rs: seq<Region>)
    requires rs == [Region(FOUR_GB - 2 * FOUR_MB, 2 * FOUR_MB, 0)] && base % PAGE == 0
    ensures Sound(rs)
    ensures Listed(tables, rs) && Image(out, base, tables, rs) ==> Walk(out, base, FOUR_GB - 1) == NotPresent
  {
    AlignedIff(rs[0]);
    if Listed(tables, rs) && Image(out, base, tables, rs) {
      PresentIffCovered(out, base, tables, rs, FOUR_GB - 1);
    }
  }

  lemma {:induction false} CoveredIff(rs: seq<Region>, a: nat)
    ensures LastCovering(rs, a).HasPerms? <==> exists i :: 0 <= i < |rs| && Covers(rs[i], a)
  {
    if rs != [] {
      var n := |rs| - 1;
      CoveredIff(rs[..n], a);
      assert forall i | 0 <= i < n :: rs[..n][i] == rs[i];
      if LastCovering(rs[..n], a).HasPerms? {
        var i :| 0 <= i < n && Covers(rs[..n][i], a);
        assert Covers(rs[i], a);
      }
    }
  }

  lemma {:induction false} CoveredIsTouched(rs: seq<Region>, a: nat)
    requires LastCovering(rs, a).HasPerms?
    ensures FirstTouching(rs, a / FOUR_MB).HasPerms?
  {
    if !Covers(rs[|rs| - 1], a) { CoveredIsTouched(rs[..|rs| - 1], a); }
  }

  /** Every word fits its 32 bits when the tables fit below 4 GB. */
  lemma WordsFit(out: seq<nat>, base: nat, tables: seq<nat>, rs: seq<Region>, i: nat)
    requires Sound(rs) && Listed(tables, rs) && Image(out, base, tables, rs)
    requires base + PAGE + |tables| * PAGE <= FOUR_GB && i < |out|
    ensures out[i] < FOUR_GB
  {
    if i < 1024 {
      assert out[i] == DirectoryWord(base, tables, Tuples(rs, i), i);
      if Tuples(rs, i) != [] { PdeFits(Tuples(rs, i)[0].perms, base, IndexOf(tables, i), |tables|); }
    } else {
      var k, t := SlotOf(i, |tables|);
      assert TableAt(out, k, Tuples(rs, tables[k]), tables[k]);
      assert out[i] == Slot(out, k, t) == TableWord(Tuples(rs, tables[k]), tables[k], t);
      TableWordFits(Tuples(rs, tables[k]), tables[k], t);
    }
  }

  lemma PdeFits(perms: nat, base: nat, i: nat, n: nat)
    requires base + PAGE + n * PAGE <= FOUR_GB && i < n
    ensures PdeValue(perms, Frame(base, i)) < FOUR_GB
  {
    PdeFields(perms, Frame(base, i));
    assert Frame(base, i) * PAGE <= base + PAGE + i * PAGE;
  }

  /** Which table a word of the output is in, and where. */
  lemma SlotOf(i: nat, n: nat) returns (k: nat, t: nat)
    requires 1024 <= i < 1024 + 1024 * n
    ensures k < n && t < 1024 && i == 1024 + 1024 * k + t
  {
    k, t := (i - 1024) / 1024, (i - 1024) % 1024;
  }

  lemma {:induction false} TableWordFits(ts: seq<Pages>, d: nat, t: nat)
    requires d < 1024 && t < 1024
    ensures TableWord(ts, d, t) < FOUR_GB
  {
    var p := LastHit(ts, t);
    if p.HasPerms? { PteFields(p.perms, d, t); }
  }
}
