/** The generator itself: it collects runs per directory entry, checks them, and writes the output. */
module PageGenerator {
  import opened PageEntries
  import opened PageRegions
  import opened PageTables
  import opened PageInput
  import opened Common

  type Runs = map<nat, seq<Pages>>

  function Entry(m: Runs, d: nat): (ts: seq<Pages>) {
    if d in m then m[d] else []
  }

  ghost predicate AllOk(rs: seq<Region>) {
    forall i | 0 <= i < |rs| :: RegionOk(rs[i])
  }

  /** The dictionary and the table list after the regions `rs`. */
  ghost predicate Collected(m: Runs, tables: seq<nat>, rs: seq<Region>)
    requires AllOk(rs)
  {
    && (forall d: nat :: Entry(m, d) == Tuples(rs, d))
    && Tracked(m, tables)
  }

  /** The table list has the dictionary's keys, each once. */
  ghost predicate Tracked(m: Runs, tables: seq<nat>) {
    && (forall d | d in m :: d < 1024 && m[d] != [])
    && (forall d: nat :: d in tables <==> d in m)
    && NoDuplicates(tables)
  }

  // ---- sorting

  function InsertInto(s: seq<nat>, x: nat): (r: seq<nat>) {
    if s == [] || x <= s[0] then [x] + s else [s[0]] + InsertInto(s[1..], x)
  }

  /** `list.sort`. */
  function Sort(s: seq<nat>): (r: seq<nat>) {
    if s == [] then [] else InsertInto(Sort(s[1..]), s[0])
  }

  lemma {:induction false} InsertIncreasing(s: seq<nat>, x: nat)
    requires Increasing(s) && x !in s
    ensures Increasing(InsertInto(s, x))
    ensures forall y :: y in InsertInto(s, x) <==> y == x || y in s
  {
    if s == [] || x <= s[0] {
      assert s != [] ==> s[0] in s;
    } else {
      InsertIncreasing(s[1..], x);
      assert s == [s[0]] + s[1..];
      var r := InsertInto(s[1..], x);
      forall j | 0 <= j < |r| ensures s[0] < r[j] {
        assert r[j] in r;
        if r[j] != x { var i :| 0 <= i < |s[1..]| && s[1..][i] == r[j]; }
      }
    }
  }

  lemma {:induction false} SortIncreasing(s: seq<nat>)
    requires NoDuplicates(s)
    ensures Increasing(Sort(s))
    ensures forall y :: y in Sort(s) <==> y in s
  {
    if s != [] {
      SortIncreasing(s[1..]);
      assert s == [s[0]] + s[1..];
      InsertIncreasing(Sort(s[1..]), s[0]);
    }
  }

  /** There is one increasing list with given members. */
  lemma {:induction false} IncreasingUnique(s: seq<nat>, t: seq<nat>)
    requires Increasing(s) && Increasing(t) && (forall y :: y in s <==> y in t)
    ensures s == t
  {
    assert s == [] || s[0] in s;
    assert t == [] || t[0] in t;
    if s != [] {
      assert s[0] in t && t != [] && t[0] in s;
      assert s[0] == t[0];
      assert s == [s[0]] + s[1..] && t == [t[0]] + t[1..];
      forall y ensures y in s[1..] <==> y in t[1..] {
        if y in s[1..] {
          var i :| 0 <= i < |s[1..]| && s[1..][i] == y;
          assert y in t && y != t[0];
        }
        if y in t[1..] {
          var i :| 0 <= i < |t[1..]| && t[1..][i] == y;
          assert y in s && y != s[0];
        }
      }
      IncreasingUnique(s[1..], t[1..]);
    }
  }

  // ---- collecting

  /** The runs of `r` at directory entries below `e`, added to those collected before. */
  ghost predicate PartlyAdded(m: Runs, before: Runs, r: Region, e: nat)
    requires RegionOk(r)
  {
    forall d: nat :: Entry(m, d) == Entry(before, d) + if d < e then PieceAt(r, d) else []
  }

  lemma AddedStep(m: Runs, m': Runs, before: Runs, r: Region, e: nat, t: Pages)
    requires RegionOk(r) && PartlyAdded(m, before, r, e) && PieceAt(r, e) == [t]
    requires forall d: nat :: Entry(m', d) == Entry(m, d) + if d == e then [t] else []
    ensures PartlyAdded(m', before, r, e + 1)
  {
    forall d: nat ensures Entry(m', d) == Entry(before, d) + if d < e + 1 then PieceAt(r, d) else [] {
      assert Entry(m', d) == Entry(m, d) + if d == e then [t] else [];
      assert Entry(m, d) == Entry(before, d) + if d < e then PieceAt(r, d) else [];
    }
  }

  lemma NothingBelow(m: Runs, r: Region)
    requires RegionOk(r)
    ensures PartlyAdded(m, m, r, Pde(r.start))
  {
  }

  lemma AddedAll(m: Runs, before: Runs, r: Region, e: nat)
    requires RegionOk(r) && PartlyAdded(m, before, r, e)
    requires e > Pde(r.start) && (Left(r, e) <= 0 || e > Pde(r.start + r.size))
    ensures forall d: nat :: Entry(m, d) == Entry(before, d) + PieceAt(r, d)
  {
    forall d: nat ensures Entry(m, d) == Entry(before, d) + PieceAt(r, d) {
      assert Entry(m, d) == Entry(before, d) + if d < e then PieceAt(r, d) else [];
      if d >= e { LeftFalls(r, e, d); }
    }
  }

  lemma LeftFalls(r: Region, e: nat, d: nat)
    requires RegionOk(r) && e <= d
    ensures Left(r, d) == Left(r, e) - (d - e) * FOUR_MB <= Left(r, e)
  {
  }

  class Generator {
    const base: nat
    var listOfPde: Runs
    var tables: seq<nat>

    constructor (base: nat)
      ensures this.base == base && Collected(listOfPde, tables, [])
    {
      this.base := base;
      listOfPde, tables := map[], [];
    }

    /** `set_pde_pte_values`, and the table list kept beside it. */
    method SetPdePteValues(d: nat, t: Pages)
      requires Tracked(listOfPde, tables) && d < 1024
      modifies this
      ensures Tracked(listOfPde, tables)
      ensures forall e: nat :: Entry(listOfPde, e) == Entry(old(listOfPde), e) + if e == d then [t] else []
    {
      if d in listOfPde {
        listOfPde := listOfPde[d := listOfPde[d] + [t]];
      } else {
        listOfPde := listOfPde[d := [t]];
      }
      if d !in tables {
        tables := tables + [d];
      }
    }

    /** The body of the region loop of `populate_required_structs`. */
    method PopulateRegion(r: Region)
      requires RegionOk(r) && Tracked(listOfPde, tables)
      modifies this
      ensures Tracked(listOfPde, tables)
      ensures forall d: nat :: Entry(listOfPde, d) == Entry(old(listOfPde), d) + PieceAt(r, d)
    {
      ghost var m := listOfPde;
      NothingBelow(m, r);
      var p := Pde(r.start);
      var first := Pte(r.start);
      var last := Pte(r.start + r.size - 1);
      var memSize := r.size;
      if r.size + first * PAGE >= FOUR_MB {
        last := 1023;
        memSize := (1024 - first) * PAGE;
      }
      var pages := Pages(r.start, memSize, first, last, r.perms);
      SetPdePteValues(p, pages);
      AddedStep(m, listOfPde, m, r, p, pages);
      var overflow := r.size - memSize;
      if overflow != 0 {
        AddExtras(r, overflow, m);
      } else {
        AddedAll(listOfPde, m, r, p + 1);
      }
    }

    /** One round of the overflow loop: the run of directory entry `e`. */
    method AddExtra(r: Region, e: nat, overflow: nat, ghost before: Runs) returns (left: nat)
      requires RegionOk(r) && Tracked(listOfPde, tables) && PartlyAdded(listOfPde, before, r, e)
      requires Pde(r.start) < e <= Pde(r.start + r.size) && overflow == Left(r, e) > 0
      modifies this
      ensures Tracked(listOfPde, tables) && PartlyAdded(listOfPde, before, r, e + 1)
      ensures if left == 0 then Left(r, e + 1) <= 0 else left == Left(r, e + 1)
    {
      ghost var m := listOfPde;
      var last := Pte(e * FOUR_MB + overflow - 1);
      var size := overflow;
      if overflow >= FOUR_MB {
        size := FOUR_MB;
        last := 1023;
      }
      var pages := Pages(e * FOUR_MB, size, 0, last, r.perms);
      assert PieceAt(r, e) == [pages];
      SetPdePteValues(e, pages);
      AddedStep(m, listOfPde, before, r, e, pages);
      LeftFalls(r, e, e + 1);
      left := overflow - size;
    }

    /** The overflow loop: one directory entry after the other until nothing is left. */
    method AddExtras(r: Region, overflow0: nat, ghost before: Runs)
      requires RegionOk(r) && Tracked(listOfPde, tables)
      requires overflow0 == Left(r, Pde(r.start) + 1) > 0 && PartlyAdded(listOfPde, before, r, Pde(r.start) + 1)
      modifies this
      ensures Tracked(listOfPde, tables)
      ensures forall d: nat :: Entry(listOfPde, d) == Entry(before, d) + PieceAt(r, d)
    {
      var overflow := overflow0;
      var stop := Pde(r.start + r.size) + 1;
      var e := Pde(r.start) + 1;
      while e < stop
        invariant Tracked(listOfPde, tables) && PartlyAdded(listOfPde, before, r, e)
        invariant e > Pde(r.start) && overflow == Left(r, e) > 0
      {
        overflow := AddExtra(r, e, overflow, before);
        e := e + 1;
        if overflow == 0 {
          break;
        }
      }
      AddedAll(listOfPde, before, r, e);
    }

    /** `populate_required_structs`. */
    method Populate(rs: seq<Region>)
      requires AllOk(rs) && Collected(listOfPde, tables, [])
      modifies this
      ensures Collected(listOfPde, tables, rs) && Increasing(tables)
    {
      var i := 0;
      while i < |rs|
        invariant 0 <= i <= |rs| && Collected(listOfPde, tables, rs[..i])
      {
        assert rs[..i + 1][..i] == rs[..i];
        PopulateRegion(rs[i]);
        i := i + 1;
      }
      assert rs[..i] == rs;
      SortIncreasing(tables);
      tables := Sort(tables);
    }

    /** `validate_pde_regions`. */
    method Validate() returns (ok: bool)
      requires Tracked(listOfPde, tables)
      ensures ok <==> RunsAligned(listOfPde)
    {
      var d := 0;
      while d < 1024
        invariant 0 <= d <= 1024
        invariant forall e | e in listOfPde && e < d :: EachAligned(listOfPde[e])
      {
        if d in listOfPde {
          var fine := CheckRuns(listOfPde[d]);
          if !fine {
            return false;
          }
        }
        d := d + 1;
      }
      return true;
    }

    /** `page_directory_create_binary_file`. */
    method CreateDirectory(output: array<nat>, ghost rs: seq<Region>)
      requires AllOk(rs) && Collected(listOfPde, tables, rs) && Listed(tables, rs) && output.Length >= 1024
      modifies output
      ensures DirectoryAt(output[..], base, tables, rs)
    {
      var d := 0;
      while d < 1024
        invariant 0 <= d <= 1024
        invariant forall e: nat | e < d :: output[e] == DirectoryWord(base, tables, Tuples(rs, e), e)
      {
        var word := DirectoryEntry(d, rs);
        output[d] := word;
        d := d + 1;
      }
    }

    method DirectoryEntry(d: nat, ghost rs: seq<Region>) returns (word: nat)
      requires AllOk(rs) && Collected(listOfPde, tables, rs) && Listed(tables, rs)
      ensures word == DirectoryWord(base, tables, Tuples(rs, d), d)
    {
      assert Entry(listOfPde, d) == Tuples(rs, d);
      if d in listOfPde {
        return PdeValue(listOfPde[d][0].perms, Frame(base, IndexOf(tables, d)));
      }
      return 0;
    }

    /** `sorted(list_of_pde.items())`: the keys in order. */
    method SortedKeys() returns (ks: seq<nat>)
      requires Tracked(listOfPde, tables)
      ensures Increasing(ks) && forall d: nat :: d in ks <==> d in listOfPde
    {
      ks := [];
      var d := 0;
      while d < 1024
        invariant 0 <= d <= 1024 && Increasing(ks)
        invariant forall e: nat :: e in ks <==> e in listOfPde && e < d
      {
        if d in listOfPde {
          assert forall i | 0 <= i < |ks| :: ks[i] in ks;
          ks := ks + [d];
        }
        d := d + 1;
      }
    }

    /** `page_table_create_binary_file`: table after table, in the order of their directory entries. */
    method CreateTables(output: array<nat>, ghost rs: seq<Region>)
      requires AllOk(rs) && Collected(listOfPde, tables, rs) && Listed(tables, rs) && Increasing(tables)
      requires output.Length == 1024 + 1024 * |tables| && DirectoryAt(output[..], base, tables, rs)
      modifies output
      ensures Image(output[..], base, tables, rs)
    {
      var ks := SortedKeys();
      IncreasingUnique(ks, tables);
      var k := 0;
      while k < |ks|
        invariant 0 <= k <= |ks| && DirectoryAt(output[..], base, tables, rs)
        invariant TablesTo(output[..], tables, rs, k)
      {
        ghost var before := output[..];
        assert Entry(listOfPde, ks[k]) == Tuples(rs, ks[k]);
        WriteTable(output, k, ks[k], listOfPde[ks[k]]);
        TablesKept(before, output[..], tables, rs, k);
        DirectoryKept(before, output[..], base, tables, rs);
        k := k + 1;
      }
    }

    /** The generator from the region list to the output file, or to an exit with an error. */
    method Generate(list: seq<Region>) returns (r: Option<seq<nat>>)
      requires AllReadable(list) && Collected(listOfPde, tables, [])
      modifies this
      ensures r.Some? <==> Sound(NonEmpty(list)) && NoneInside(NonEmpty(list))
      ensures r.Some? ==> Listed(tables, NonEmpty(list)) && Image(r.value, base, tables, NonEmpty(list))
      ensures r.Some? && base % PAGE == 0 ==>
        forall a: nat | a < FOUR_GB :: Walk(r.value, base, a) == Asked(NonEmpty(list), a)
    {
      var raw, overlap := ReadList(list);
      Populate(raw);
      var ok := Validate();
      RunsAlignedIff(listOfPde, tables, raw);
      if !ok || overlap {
        return None;
      }
      var words := WriteFile(raw);
      return Some(words);
    }

    /** The output file of regions that passed the checks. */
    method WriteFile(rs: seq<Region>) returns (words: seq<nat>)
      requires AllOk(rs) && Collected(listOfPde, tables, rs) && Increasing(tables) && Sound(rs)
      ensures Listed(tables, rs) && Image(words, base, tables, rs)
      ensures base % PAGE == 0 ==> forall a: nat | a < FOUR_GB :: Walk(words, base, a) == Asked(rs, a)
    {
      CollectedIsListed(listOfPde, tables, rs);
      KeyCount(tables, listOfPde.Keys);
      var output := new nat[1024 + 1024 * |listOfPde|];
      CreateDirectory(output, rs);
      CreateTables(output, rs);
      words := output[..];
      if base % PAGE == 0 {
        forall a: nat | a < FOUR_GB ensures Walk(words, base, a) == Asked(rs, a) {
          WalkIsAsked(words, base, tables, rs, a);
        }
      }
    }
  }

  // ---- checking

  ghost predicate EachAligned(ts: seq<Pages>) {
    forall i | 0 <= i < |ts| :: PageAligned(ts[i])
  }

  ghost predicate RunsAligned(m: Runs) {
    forall d | d in m :: EachAligned(m[d])
  }

  method CheckRuns(ts: seq<Pages>) returns (ok: bool)
    ensures ok <==> EachAligned(ts)
  {
    var i := 0;
    while i < |ts|
      invariant 0 <= i <= |ts| && forall j | 0 <= j < i :: PageAligned(ts[j])
    {
      if !PageAligned(ts[i]) {
        return false;
      }
      i := i + 1;
    }
    return true;
  }

  lemma {:induction false} TuplesAligned(rs: seq<Region>, d: nat)
    requires AllOk(rs)
    ensures EachAligned(Tuples(rs, d)) <==>
      forall i | 0 <= i < |rs| :: PieceAt(rs[i], d) == [] || PageAligned(PieceAt(rs[i], d)[0])
  {
    if rs != [] {
      var n := |rs| - 1;
      TuplesAligned(rs[..n], d);
      var a, b := Tuples(rs[..n], d), PieceAt(rs[n], d);
      assert forall i | 0 <= i < n :: rs[..n][i] == rs[i];
      assert EachAligned(a + b) <==> EachAligned(a) && EachAligned(b) by {
        assert forall i | 0 <= i < |a| :: (a + b)[i] == a[i];
        assert forall i | 0 <= i < |b| :: (a + b)[|a| + i] == b[i];
      }
    }
  }

  /** The check passes exactly for regions whose every run is on page boundaries. */
  lemma RunsAlignedIff(m: Runs, tables: seq<nat>, rs: seq<Region>)
    requires AllOk(rs) && Collected(m, tables, rs)
    ensures RunsAligned(m) <==> Sound(rs)
  {
    forall d: nat ensures EachAligned(Entry(m, d)) <==>
        forall i | 0 <= i < |rs| :: PieceAt(rs[i], d) == [] || PageAligned(PieceAt(rs[i], d)[0]) {
      assert Entry(m, d) == Tuples(rs, d);
      TuplesAligned(rs, d);
    }
    if RunsAligned(m) {
      forall i, d: nat | 0 <= i < |rs| && PieceAt(rs[i], d) != [] ensures PageAligned(PieceAt(rs[i], d)[0]) {
        assert EachAligned(Entry(m, d));
      }
    }
    if Sound(rs) {
      forall d | d in m ensures EachAligned(m[d]) {
        assert Entry(m, d) == m[d];
        assert forall i | 0 <= i < |rs| :: AllAligned(rs[i]);
      }
    }
  }

  // ---- writing

  lemma CollectedIsListed(m: Runs, tables: seq<nat>, rs: seq<Region>)
    requires AllOk(rs) && Collected(m, tables, rs)
    ensures Listed(tables, rs)
  {
    forall d: nat ensures d in tables <==> Tuples(rs, d) != [] {
      assert Entry(m, d) == Tuples(rs, d);
    }
    forall k | 0 <= k < |tables| ensures tables[k] < 1024 {
      assert tables[k] in tables;
    }
  }

  lemma {:induction false} KeyCount(s: seq<nat>, keys: set<nat>)
    requires NoDuplicates(s) && forall d: nat :: d in s <==> d in keys
    ensures |keys| == |s|
  {
    if s == [] {
      assert keys == {} by {
        forall d: nat ensures d !in keys { assert d in s <==> d in keys; }
      }
    } else {
      var t := s[1..];
      assert s == [s[0]] + t;
      forall d: nat ensures d in t <==> d in keys - {s[0]} {
        assert d in s <==> d in keys;
      }
      KeyCount(t, keys - {s[0]});
      assert s[0] in keys;
    }
  }

  /** Which run wins an entry: the loop over the runs of a table. */
  method PermsFor(ts: seq<Pages>, pte: nat) returns (p: Perms)
    ensures p == LastHit(ts, pte)
  {
    p := NoPerms;
    var i := 0;
    while i < |ts|
      invariant 0 <= i <= |ts| && p == LastHit(ts[..i], pte)
    {
      assert ts[..i + 1][..i] == ts[..i];
      if Hit(ts[i], pte) {
        p := HasPerms(ts[i].perms);
      }
      i := i + 1;
    }
    assert ts[..i] == ts;
  }

  method WriteTable(output: array<nat>, k: nat, d: nat, ts: seq<Pages>)
    requires 2048 + 1024 * k <= output.Length
    modifies output
    ensures TableAt(output[..], k, ts, d)
    ensures forall j | 0 <= j < 1024 + 1024 * k :: output[j] == old(output[j])
  {
    var t := 0;
    while t < 1024
      invariant 0 <= t <= 1024
      invariant forall u: nat | u < t :: Slot(output[..], k, u) == TableWord(ts, d, u)
      invariant forall j | 0 <= j < 1024 + 1024 * k :: output[j] == old(output[j])
    {
      ghost var before := output[..];
      var p := PermsFor(ts, t);
      var at := 1024 + 1024 * k + t;
      output[at] := if p.HasPerms? then PteValue(p.perms, d, t) else 0;
      forall u: nat | u < t + 1 ensures Slot(output[..], k, u) == TableWord(ts, d, u) {
        if u < t { assert Slot(output[..], k, u) == Slot(before, k, u); }
      }
      t := t + 1;
    }
  }

  lemma TableKept(before: seq<nat>, after: seq<nat>, j: nat, k: nat, ts: seq<Pages>, d: nat)
    requires |before| == |after| && j < k && 2048 + 1024 * k <= |after| && TableAt(before, j, ts, d)
    requires forall i | 0 <= i < 1024 + 1024 * k :: after[i] == before[i]
    ensures TableAt(after, j, ts, d)
  {
    forall t: nat | t < 1024 ensures Slot(after, j, t) == TableWord(ts, d, t) {
      assert Slot(before, j, t) == TableWord(ts, d, t);
    }
  }

  /** The first `k` tables are in place. */
  ghost predicate TablesTo(out: seq<nat>, tables: seq<nat>, rs: seq<Region>, k: nat)
    requires AllOk(rs) && k <= |tables|
  {
    forall j: nat | j < k :: TableAt(out, j, Tuples(rs, tables[j]), tables[j])
  }

  lemma {:induction false} TablesKept(before: seq<nat>, after: seq<nat>, tables: seq<nat>, rs: seq<Region>, k: nat)
    requires AllOk(rs) && k < |tables| && |before| == |after| && 2048 + 1024 * k <= |after|
    requires TablesTo(before, tables, rs, k) && TableAt(after, k, Tuples(rs, tables[k]), tables[k])
    requires forall i | 0 <= i < 1024 + 1024 * k :: after[i] == before[i]
    ensures TablesTo(after, tables, rs, k + 1)
  {
    forall j: nat | j < k ensures TableAt(after, j, Tuples(rs, tables[j]), tables[j]) {
      TableKept(before, after, j, k, Tuples(rs, tables[j]), tables[j]);
    }
  }

  lemma DirectoryKept(before: seq<nat>, after: seq<nat>, base: nat, tables: seq<nat>, rs: seq<Region>)
    requires AllOk(rs) && Listed(tables, rs) && DirectoryAt(before, base, tables, rs)
    requires 1024 <= |after| && forall i | 0 <= i < 1024 :: after[i] == before[i]
    ensures DirectoryAt(after, base, tables, rs)
  {
  }
}
