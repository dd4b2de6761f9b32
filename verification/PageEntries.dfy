/** Numbers built by shifting and or-ing bit fields, and the two kinds of x86 page entries. */
module PageEntries {
  const PAGE: nat := 4096
  const FOUR_MB: nat := 4194304
  const FOUR_GB: nat := 4294967296

  /** Bitwise or. */
  function Or(a: nat, b: nat): (r: nat)
    decreases a + b
  {
    if a == 0 then b
    else if b == 0 then a
    else (if a % 2 == 1 || b % 2 == 1 then 1 else 0) + 2 * Or(a / 2, b / 2)
  }

  function Pow2(k: nat): (r: nat)
    ensures r > 0
  {
    if k == 0 then 1 else 2 * Pow2(k - 1)
  }

  /** Or-ing a number into the free low bits of another adds it. */
  lemma {:induction false} OrIsSum(a: nat, m: nat, k: nat)
    requires a < Pow2(k)
    ensures Or(a, m * Pow2(k)) == a + m * Pow2(k)
  {
    if k > 0 {
      OrIsSum(a / 2, m, k - 1);
      Doubled(m, Pow2(k - 1));
    }
  }

  lemma Doubled(m: nat, p: nat)
    ensures m * (2 * p) == 2 * (m * p)
  {
  }

  lemma Powers()
    ensures Pow2(1) == 2 && Pow2(2) == 4 && Pow2(9) == 512 && Pow2(10) == 1024 && Pow2(12) == 4096
  {
    assert Pow2(4) == 16;
    assert Pow2(8) == 256;
  }

  function Bit(x: nat, k: nat): (r: nat)
    ensures r < 2
  {
    x / Pow2(k) % 2
  }

  /** `check_bits`: 1 when one of two bits is set. */
  function CheckBits(x: nat, j: nat, k: nat): (r: nat)
    ensures r < 2
  {
    if Bit(x, j) == 1 || Bit(x, k) == 1 then 1 else 0
  }

  /** Present, with the read-write and user bits. */
  function Flags(rw: nat, us: nat): (r: nat) {
    Or(Or(1, rw * 2), us * 4)
  }

  /** `get_binary_pde_value`, for a page table in page frame `frame`. */
  function PdeValue(perms: nat, frame: nat): (r: nat) {
    Or(Flags(CheckBits(perms, 1, 29), CheckBits(perms, 2, 28)), frame * PAGE)
  }

  /** `get_binary_pte_value`, for page `pte` of the 4 MB region `pde`. */
  function PteValue(perms: nat, pde: nat, pte: nat): (r: nat) {
    Or(Or(Flags(Bit(perms, 1), Bit(perms, 2)), 512), Or(pde * 1024, pte) * PAGE)
  }

  lemma FlagsSum(rw: nat, us: nat)
    requires rw < 2 && us < 2
    ensures Flags(rw, us) == 1 + rw * 2 + us * 4
  {
    Powers();
    OrIsSum(1, rw, 1);
    OrIsSum(1 + rw * 2, us, 2);
  }

  lemma {:induction false} AllocSum(flags: nat)
    requires flags < 512
    ensures Or(flags, 512) == flags + 512
  {
    Powers();
    OrIsSum(flags, 1, 9);
  }

  lemma {:induction false} FrameSum(low: nat, frame: nat)
    requires low < PAGE
    ensures Or(low, frame * PAGE) == low + frame * PAGE
  {
    Powers();
    OrIsSum(low, frame, 12);
  }

  lemma {:induction false} OrCommutes(a: nat, b: nat)
    ensures Or(a, b) == Or(b, a)
    decreases a + b
  {
    if a > 0 && b > 0 { OrCommutes(a / 2, b / 2); }
  }

  lemma {:induction false} PageSum(pde: nat, pte: nat)
    requires pte < 1024
    ensures Or(pde * 1024, pte) == pde * 1024 + pte
  {
    Powers();
    OrIsSum(pte, pde, 10);
    OrCommutes(pde * 1024, pte);
  }

  lemma PdeFields(perms: nat, frame: nat)
    ensures PdeValue(perms, frame) == 1 + CheckBits(perms, 1, 29) * 2 + CheckBits(perms, 2, 28) * 4 + frame * PAGE
  {
    FlagsSum(CheckBits(perms, 1, 29), CheckBits(perms, 2, 28));
    FrameSum(Flags(CheckBits(perms, 1, 29), CheckBits(perms, 2, 28)), frame);
  }

  lemma {:induction false} PteSum(rw: nat, us: nat, page: nat)
    requires rw < 2 && us < 2
    ensures Or(Or(Flags(rw, us), 512), page * PAGE) == 1 + rw * 2 + us * 4 + 512 + page * PAGE
  {
    FlagsSum(rw, us);
    AllocSum(1 + rw * 2 + us * 4);
    FrameSum(1 + rw * 2 + us * 4 + 512, page);
  }

  lemma PteFields(perms: nat, pde: nat, pte: nat)
    requires pte < 1024
    ensures PteValue(perms, pde, pte)
         == 1 + Bit(perms, 1) * 2 + Bit(perms, 2) * 4 + 512 + (pde * 1024 + pte) * PAGE
  {
    PteSum(Bit(perms, 1), Bit(perms, 2), Or(pde * 1024, pte));
    PageSum(pde, pte);
  }
}
