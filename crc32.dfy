/**
 * The CRC-32 of engine/util/Utils.h: a 256-entry lookup table generated by
 * `gen_crc32_table`, and `crc32`, which folds a NUL-terminated C string
 * through that table.  It is the frame-check CRC of IEEE 802.3 (clause
 * 3.2.9): reflected polynomial 0xEDB88320, register preset to all ones,
 * result complemented.  The engine hashes asset paths, event-argument keys
 * and serializer class names with it.
 *
 * `uint32_t` is `bv32`.  A `char` is modelled as its raw byte (`bv8`); the
 * engine is built with MSVC, where `char` is signed, so in `crc ^ c` the
 * character is sign-extended to 32 bits (`Promote`).
 */
module Crc32 {

  const Polynomial: bv32 := 0xEDB88320

  /** One reflected shift-register step: shift right, and fold in the polynomial when the bit shifted out was set. */
  function BitStep(crc: bv32): bv32 {
    (crc >> 1) ^ (0xEDB88320 & -(crc & 1))
  }

  /** `f` applied `k` times to `x`. */
  function Iterate(f: bv32 -> bv32, x: bv32, k: nat): bv32 {
    if k == 0 then x else f(Iterate(f, x, k - 1))
  }

  /** The table entry for the byte value `w`: eight single-bit steps starting from `w`. */
  function TableEntry(w: bv32): bv32 {
    Iterate(BitStep, w, 8)
  }

  /** The table index `(crc ^ c) & 0xFF`, always below 256. */
  function Index(x: bv32): (i: int)
    ensures 0 <= i < 256
  {
    (x & 0xFF) as int
  }

  /** A signed `char` widened to `uint32_t`: bytes of 0x80 and above are sign-extended. */
  function Promote(c: bv8): bv32 {
    if c < 0x80 then c as bv32 else (c as bv32) | 0xFFFF_FF00
  }

  /** The low byte of a word, `x & 0xFF`. */
  function LowByte(x: bv32): bv32 {
    x & 0xFF
  }

  /** The register with the character's own eight bits xor-ed into it (no sign extension). */
  function Mixed(crc: bv32, c: bv8): bv32 {
    crc ^ (c as bv32)
  }

  /** One table-driven step of the `crc32` loop for character `c`. */
  function Step(crc: bv32, c: bv8): bv32 {
    TableEntry(LowByte(crc ^ Promote(c))) ^ (crc >> 8)
  }

  /** The register after feeding `s` to the loop, starting from `crc`: a left fold of `step`. */
  function Fold(step: (bv32, bv8) -> bv32, crc: bv32, s: seq<bv8>): bv32 {
    if s == [] then crc else step(Fold(step, crc, s[..|s| - 1]), s[|s| - 1])
  }

  /** The index of the terminating NUL: the first zero byte. */
  function NulIndex(s: seq<bv8>): (k: nat)
    requires 0 in s
    ensures k < |s| && s[k] == 0
    ensures forall j :: 0 <= j < k ==> s[j] != 0
  {
    if s[0] == 0 then 0 else 1 + NulIndex(s[1..])
  }

  /** The checksum `crc32` returns for a NUL-terminated string. */
  function Crc32Of(s: seq<bv8>): bv32
    requires 0 in s
  {
    !Fold(Step, 0xFFFF_FFFF, s[..NulIndex(s)])
  }

  // ---------------------------------------------------------------------------
  // The two loops of Utils.h
  // ---------------------------------------------------------------------------

  /** Fills the 256-entry table; entry `b` is eight reflected steps from `b`. */
  method GenCrc32Table() returns (crc32Table: array<bv32>)
    ensures fresh(crc32Table)
    ensures IsCrcTable(crc32Table)
  {
    crc32Table := new bv32[256];
    for byte := 0 to 256
      invariant forall b :: 0 <= b < byte ==> crc32Table[b] == TableEntry(b as bv32)
    {
      var crc: bv32 := byte as bv32;
      for i := 0 to 8
        invariant crc == Iterate(BitStep, byte as bv32, i)
      {
        var mask: bv32 := -(crc & 1);
        crc := (crc >> 1) ^ (Polynomial & mask);
        assert crc == BitStep(Iterate(BitStep, byte as bv32, i));
      }
      crc32Table[byte] := crc;
    }
    IndexedByWords(crc32Table);
  }

  /** A table equal to the one `gen_crc32_table` produces, as the static initialiser guarantees. */
  ghost predicate IsCrcTable(crc32Table: array<bv32>)
    reads crc32Table
  {
    crc32Table.Length == 256 && forall w: bv32 :: w < 256 ==> crc32Table[w as int] == TableEntry(w)
  }

  /** One iteration of the `crc32` loop: look the masked index up and shift the register. */
  method TableStep(crc32Table: array<bv32>, crc: bv32, c: bv8) returns (next: bv32)
    requires IsCrcTable(crc32Table)
    ensures next == Step(crc, c)
  {
    next := crc32Table[Index(crc ^ Promote(c))] ^ (crc >> 8);
  }

  /** `crc32` over the characters before the first NUL of `input`. */
  method Crc32(crc32Table: array<bv32>, input: seq<bv8>) returns (r: bv32)
    requires IsCrcTable(crc32Table)
    requires 0 in input
    ensures r == Crc32Of(input)
  {
    ghost var k := NulIndex(input);
    var crc: bv32 := 0xFFFF_FFFF;
    var i := 0;
    while input[i] != 0
      invariant i <= k
      invariant crc == Fold(Step, 0xFFFF_FFFF, input[..i])
      decreases k - i
    {
      crc := TableStep(crc32Table, crc, input[i]);
      FoldPrefixStep(input, i);
      i := i + 1;
    }
    assert i == k;
    r := !crc;
  }

  /** Extending the folded prefix by one byte is one more step. */
  lemma FoldPrefixStep(s: seq<bv8>, i: nat)
    requires i < |s|
    ensures Fold(Step, 0xFFFF_FFFF, s[..i + 1]) == Step(Fold(Step, 0xFFFF_FFFF, s[..i]), s[i])
  {
    assert s[..i + 1][..i] == s[..i];
  }

  /** The table filled with integer positions satisfies the word-indexed form of `IsCrcTable`. */
  lemma IndexedByWords(crc32Table: array<bv32>)
    requires crc32Table.Length == 256
    requires forall b :: 0 <= b < 256 ==> crc32Table[b] == TableEntry(b as bv32)
    ensures IsCrcTable(crc32Table)
  {
    forall w: bv32 | w < 256
      ensures crc32Table[w as int] == TableEntry(w)
    {
      WordIntWord(w);
    }
  }

  lemma WordIntWord(w: bv32)
    ensures (w as int) as bv32 == w
  {
  }

  // ---------------------------------------------------------------------------
  // Properties
  // ---------------------------------------------------------------------------

  /** The values the `static_assert` after the table checks, and the zero entry. */
  lemma TableCheckValues()
    ensures TableEntry(0) == 0
    ensures TableEntry(1) == 0x77073096
    ensures TableEntry(255) == 0x2D02EF8D
  {
  }

  /** The empty string hashes to 0: the preset all-ones register is complemented back. */
  lemma EmptyStringHashesToZero(s: seq<bv8>)
    requires |s| > 0 && s[0] == 0
    ensures Crc32Of(s) == 0
  {
    assert s[..NulIndex(s)] == [];
  }

  /** The loop is a left fold: feeding `s + t` equals feeding `t` from the register `s` left. */
  lemma {:induction false} FoldConcat(step: (bv32, bv8) -> bv32, crc: bv32, s: seq<bv8>, t: seq<bv8>)
    ensures Fold(step, crc, s + t) == Fold(step, Fold(step, crc, s), t)
  {
    if t == [] {
      assert s + t == s;
    } else {
      var init := t[..|t| - 1];
      FoldConcat(step, crc, s, init);
      assert (s + t)[..|s + t| - 1] == s + init;
    }
  }

  lemma NulOfTerminated(s: seq<bv8>, t: seq<bv8>)
    requires 0 !in s
    ensures 0 in s + [0] + t && NulIndex(s + [0] + t) == |s|
  {
    var u := s + [0] + t;
    assert u[|s|] == 0;
    assert forall j :: 0 <= j < |s| ==> u[j] == s[j];
  }

  /** Only the characters before the first NUL matter: whatever follows it is ignored. */
  lemma NulEndsTheString(s: seq<bv8>, t: seq<bv8>)
    requires 0 !in s
    ensures Crc32Of(s + [0] + t) == !Fold(Step, 0xFFFF_FFFF, s)
  {
    NulOfTerminated(s, t);
    assert (s + [0] + t)[..|s|] == s;
  }

  /** A signed `char` keeps its byte in the low eight bits; only bytes of 0x80 and above set the upper 24. */
  lemma CharPromotion(c: bv8)
    ensures Promote(c) & 0xFF == c as bv32
    ensures c < 0x80 ==> Promote(c) == c as bv32
    ensures c >= 0x80 ==> Promote(c) >> 8 == 0xFF_FFFF
  {
  }

  /** The `& 0xFF` discards the sign extension: a character contributes only its own eight bits. */
  lemma MaskDropsSignExtension(crc: bv32, c: bv8)
    ensures LowByte(crc ^ Promote(c)) == LowByte(Mixed(crc, c))
  {
    CharPromotion(c);
    XorLowByte(crc, Promote(c), c as bv32);
  }

  lemma XorLowByte(x: bv32, p: bv32, q: bv32)
    requires p & 0xFF == q & 0xFF
    ensures (x ^ p) & 0xFF == (x ^ q) & 0xFF
  {
  }

  /**
   * One table-driven step equals eight single-bit steps of the shift
   * register after the character's byte has been xor-ed into it: the table
   * is a faithful shortcut for the bitwise CRC.
   */
  lemma TableStepIsEightBitSteps(crc: bv32, c: bv8)
    ensures Step(crc, c) == Iterate(BitStep, Mixed(crc, c), 8)
  {
    StepOfByte(crc, c);
    SplitIterate(crc, c);
  }

  /** The bitwise CRC-32 step of IEEE 802.3: xor the byte into the register, then eight single-bit steps. */
  function BitwiseStep(crc: bv32, c: bv8): bv32 {
    Iterate(BitStep, Mixed(crc, c), 8)
  }

  /** The checksum of the bitwise reference algorithm over the characters before the first NUL. */
  function BitwiseCrc32Of(s: seq<bv8>): bv32
    requires 0 in s
  {
    !Fold(BitwiseStep, 0xFFFF_FFFF, s[..NulIndex(s)])
  }

  /** The table-driven `crc32` computes the bitwise CRC-32 on every string. */
  lemma Crc32IsBitwiseCrc32(s: seq<bv8>)
    requires 0 in s
    ensures Crc32Of(s) == BitwiseCrc32Of(s)
  {
    Crc32Unfolded(s);
    BitwiseCrc32Unfolded(s);
    ComplementedFoldsAgree(s[..NulIndex(s)]);
  }

  lemma Crc32Unfolded(s: seq<bv8>)
    requires 0 in s
    ensures Crc32Of(s) == !Fold(Step, 0xFFFF_FFFF, s[..NulIndex(s)])
  {
  }

  lemma BitwiseCrc32Unfolded(s: seq<bv8>)
    requires 0 in s
    ensures BitwiseCrc32Of(s) == !Fold(BitwiseStep, 0xFFFF_FFFF, s[..NulIndex(s)])
  {
  }

  lemma ComplementedFoldsAgree(t: seq<bv8>)
    ensures !Fold(Step, 0xFFFF_FFFF, t) == !Fold(BitwiseStep, 0xFFFF_FFFF, t)
  {
    TableFoldIsBitwiseFold(0xFFFF_FFFF, t);
  }

  lemma {:induction false} TableFoldIsBitwiseFold(crc: bv32, s: seq<bv8>)
    ensures Fold(Step, crc, s) == Fold(BitwiseStep, crc, s)
  {
    if s != [] {
      var init, last := s[..|s| - 1], s[|s| - 1];
      TableFoldIsBitwiseFold(crc, init);
      TableStepIsEightBitSteps(Fold(Step, crc, init), last);
    }
  }

  /** `Step` with the sign extension dropped. */
  lemma StepOfByte(crc: bv32, c: bv8)
    ensures Step(crc, c) == TableEntry(LowByte(Mixed(crc, c))) ^ (crc >> 8)
  {
    StepUnfolded(crc, c);
    EntryOfMasked(crc, c);
  }

  lemma StepUnfolded(crc: bv32, c: bv8)
    ensures Step(crc, c) == TableEntry(LowByte(crc ^ Promote(c))) ^ (crc >> 8)
  {
  }

  lemma EntryOfMasked(crc: bv32, c: bv8)
    ensures TableEntry(LowByte(crc ^ Promote(c))) == TableEntry(LowByte(Mixed(crc, c)))
  {
    MaskDropsSignExtension(crc, c);
  }

  /** Eight bit steps of `crc ^ c` split into the table entry of its low byte and the upper bits shifted down. */
  lemma SplitIterate(crc: bv32, c: bv8)
    ensures TableEntry(LowByte(Mixed(crc, c))) ^ (crc >> 8) == Iterate(BitStep, Mixed(crc, c), 8)
  {
    EntryUnfolded(LowByte(Mixed(crc, c)));
    UnfoldEight(Mixed(crc, c));
    SplitEightSteps(crc, c);
  }

  /** Applying `f` `m + n` times is applying it `m` times, then `n` times more. */
  lemma {:induction false} IterateAdd(f: bv32 -> bv32, x: bv32, m: nat, n: nat)
    ensures Iterate(f, x, m + n) == Iterate(f, Iterate(f, x, m), n)
  {
    if n > 0 {
      IterateAdd(f, x, m, n - 1);
    }
  }

  /** Four single-bit steps, half of the inner loop of `gen_crc32_table`. */
  function FourSteps(y: bv32): bv32 {
    BitStep(BitStep(BitStep(BitStep(y))))
  }

  lemma UnfoldFour(y: bv32)
    ensures Iterate(BitStep, y, 4) == FourSteps(y)
  {
    assert Iterate(BitStep, y, 4) == BitStep(Iterate(BitStep, y, 3));
    assert Iterate(BitStep, y, 3) == BitStep(Iterate(BitStep, y, 2));
    assert Iterate(BitStep, y, 2) == BitStep(Iterate(BitStep, y, 1));
    assert Iterate(BitStep, y, 1) == BitStep(y);
  }

  lemma UnfoldEight(y: bv32)
    ensures Iterate(BitStep, y, 8) == FourSteps(FourSteps(y))
  {
    IterateAdd(BitStep, y, 4, 4);
    UnfoldFour(y);
    UnfoldFour(Iterate(BitStep, y, 4));
  }

  lemma EntryUnfolded(y: bv32)
    ensures TableEntry(y) == FourSteps(FourSteps(y))
  {
    UnfoldEight(y);
  }

  /** Eight steps are linear, and the bits above the low byte only shift through them. */
  lemma SplitEightSteps(crc: bv32, c: bv8)
    ensures FourSteps(FourSteps(LowByte(Mixed(crc, c)))) ^ (crc >> 8) == FourSteps(FourSteps(Mixed(crc, c)))
  {
    EightStepsUnrolled(LowByte(Mixed(crc, c)));
    EightStepsUnrolled(Mixed(crc, c));
    UnrolledSplit(crc, c);
  }

  lemma EightStepsUnrolled(y: bv32)
    ensures
      var s1 := (y >> 1) ^ (0xEDB88320 & -(y & 1));
      var s2 := (s1 >> 1) ^ (0xEDB88320 & -(s1 & 1));
      var s3 := (s2 >> 1) ^ (0xEDB88320 & -(s2 & 1));
      var s4 := (s3 >> 1) ^ (0xEDB88320 & -(s3 & 1));
      var s5 := (s4 >> 1) ^ (0xEDB88320 & -(s4 & 1));
      var s6 := (s5 >> 1) ^ (0xEDB88320 & -(s5 & 1));
      var s7 := (s6 >> 1) ^ (0xEDB88320 & -(s6 & 1));
      var s8 := (s7 >> 1) ^ (0xEDB88320 & -(s7 & 1));
      FourSteps(FourSteps(y)) == s8
  {
    FourStepsUnrolled(y);
    FourStepsUnrolled(FourSteps(y));
  }

  lemma FourStepsUnrolled(y: bv32)
    ensures
      var s1 := (y >> 1) ^ (0xEDB88320 & -(y & 1));
      var s2 := (s1 >> 1) ^ (0xEDB88320 & -(s1 & 1));
      var s3 := (s2 >> 1) ^ (0xEDB88320 & -(s2 & 1));
      var s4 := (s3 >> 1) ^ (0xEDB88320 & -(s3 & 1));
      FourSteps(y) == s4
  {
  }

  lemma UnrolledSplit(crc: bv32, c: bv8)
    ensures
      var v := Mixed(crc, c);
      var lo := LowByte(v);
      var a1 := (lo >> 1) ^ (0xEDB88320 & -(lo & 1));
      var a2 := (a1 >> 1) ^ (0xEDB88320 & -(a1 & 1));
      var a3 := (a2 >> 1) ^ (0xEDB88320 & -(a2 & 1));
      var a4 := (a3 >> 1) ^ (0xEDB88320 & -(a3 & 1));
      var a5 := (a4 >> 1) ^ (0xEDB88320 & -(a4 & 1));
      var a6 := (a5 >> 1) ^ (0xEDB88320 & -(a5 & 1));
      var a7 := (a6 >> 1) ^ (0xEDB88320 & -(a6 & 1));
      var a8 := (a7 >> 1) ^ (0xEDB88320 & -(a7 & 1));
      var b1 := (v >> 1) ^ (0xEDB88320 & -(v & 1));
      var b2 := (b1 >> 1) ^ (0xEDB88320 & -(b1 & 1));
      var b3 := (b2 >> 1) ^ (0xEDB88320 & -(b2 & 1));
      var b4 := (b3 >> 1) ^ (0xEDB88320 & -(b3 & 1));
      var b5 := (b4 >> 1) ^ (0xEDB88320 & -(b4 & 1));
      var b6 := (b5 >> 1) ^ (0xEDB88320 & -(b5 & 1));
      var b7 := (b6 >> 1) ^ (0xEDB88320 & -(b6 & 1));
      var b8 := (b7 >> 1) ^ (0xEDB88320 & -(b7 & 1));
      a8 ^ (crc >> 8) == b8
  {
  }
}
