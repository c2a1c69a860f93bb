/**
  A compressed dictionary of ranks (gb2312_wctomb, gb2312_mbtowc). The code points are cut into
  blocks of 16; each block has a mask of the code points present in it, and the number of code
  points present in the blocks before it.
 */
module RankDict {
  import opened Bytes

  // ---------------------------------------------------------------- counting bits

  /** Bit i of a mask. */
  predicate Bit(used: bv16, i: bv16)
    requires i < 16
  {
    used & (1 << i) != 0
  }

  function One(b: bool): nat { if b then 1 else 0 }

  /** How many of the bits below n are set. */
  function Bits(used: bv16, n: bv16): nat
    requires n <= 16
  {
    if n == 0 then 0 else Bits(used, n - 1) + One(Bit(used, n - 1))
  }

  /** The bits below i. */
  function Low(used: bv16, i: bv16): bv16
    requires i < 16
  {
    used & ((1 << i) - 1)
  }

  /** The number of set bits, added up in pairs, nibbles and bytes. */
  function Swar(used: bv16): bv16 {
    var a := (used & 0x5555) + ((used & 0xAAAA) >> 1);
    var b := (a & 0x3333) + ((a & 0xCCCC) >> 2);
    var c := (b & 0x0F0F) + ((b & 0xF0F0) >> 4);
    (c & 0x00FF) + (c >> 8)
  }

  function Count(u: bv16): nat { Swar(u) as nat }

  /** The count of nibble k. */
  function Nibble(u: bv16, k: nat): nat {
    if k == 0 then Count(u & 0xFF & 0xF) else if k == 1 then Count((u & 0xFF) >> 4)
    else if k == 2 then Count((u >> 8) & 0xF) else Count((u >> 8) >> 4)
  }

  lemma {:induction false} CountOfHalves(u: bv16)
    ensures Count(u) == Count(u & 0xFF) + Count(u >> 8)
  {
    hide Swar;
    SwarOfHalves(u);
    SwarIsSmall(u & 0xFF);
    SwarIsSmall(u >> 8);
    SmallSum(Swar(u & 0xFF), Swar(u >> 8));
  }

  lemma {:induction false} SwarOfHalves(u: bv16)
    ensures Swar(u) == Swar(u & 0xFF) + Swar(u >> 8)
  {
  }

  lemma {:induction false} SwarIsSmall(u: bv16)
    ensures Swar(u) <= 16
  {
  }

  lemma SmallSum(a: bv16, b: bv16)
    requires a <= 16 && b <= 16
    ensures (a + b) as nat == a as nat + b as nat
  {
  }

  lemma {:induction false} CountOfByte(x: bv16)
    requires x <= 0xFF
    ensures Count(x) == Count(x & 0xF) + Count(x >> 4)
  {
  }

  lemma {:induction false} CountOfNibbles(u: bv16)
    ensures Count(u) == Nibble(u, 0) + Nibble(u, 1) + Nibble(u, 2) + Nibble(u, 3)
  {
    hide Count;
    CountOfHalves(u);
    CountOfByte(u & 0xFF);
    CountOfByte(u >> 8);
  }

  /** The count of a nibble is right. */
  lemma {:induction false} CountOfNibble(x: bv16)
    requires x <= 0xF
    ensures Count(x) == One(x & 1 != 0) + One(x & 2 != 0) + One(x & 4 != 0) + One(x & 8 != 0)
  {
  }

  lemma {:induction false} Nibble0(u: bv16)
    ensures Nibble(u, 0) == One(Bit(u, 0)) + One(Bit(u, 1)) + One(Bit(u, 2)) + One(Bit(u, 3))
  {
    CountOfNibble(u & 0xFF & 0xF);
  }

  lemma {:induction false} Nibble1(u: bv16)
    ensures Nibble(u, 1) == One(Bit(u, 4)) + One(Bit(u, 5)) + One(Bit(u, 6)) + One(Bit(u, 7))
  {
    CountOfNibble((u & 0xFF) >> 4);
  }

  lemma {:induction false} Nibble2(u: bv16)
    ensures Nibble(u, 2) == One(Bit(u, 8)) + One(Bit(u, 9)) + One(Bit(u, 10)) + One(Bit(u, 11))
  {
    CountOfNibble((u >> 8) & 0xF);
  }

  lemma {:induction false} Nibble3(u: bv16)
    ensures Nibble(u, 3) == One(Bit(u, 12)) + One(Bit(u, 13)) + One(Bit(u, 14)) + One(Bit(u, 15))
  {
    CountOfNibble((u >> 8) >> 4);
  }

  lemma {:induction false} FourMore(u: bv16, n: bv16)
    requires n <= 12
    ensures Bits(u, n + 4) == Bits(u, n) + One(Bit(u, n)) + One(Bit(u, n + 1)) + One(Bit(u, n + 2)) + One(Bit(u, n + 3))
  {
    hide Bit;
    assert Bits(u, n + 2) == Bits(u, n) + One(Bit(u, n)) + One(Bit(u, n + 1));
  }

  /** The count is the number of set bits. */
  lemma {:induction false} CountIsBits(u: bv16)
    ensures Count(u) == Bits(u, 16)
  {
    hide Bits, Count, Bit, Nibble;
    CountOfNibbles(u);
    Nibble0(u);
    Nibble1(u);
    Nibble2(u);
    Nibble3(u);
    FourMore(u, 0);
    FourMore(u, 4);
    FourMore(u, 8);
    FourMore(u, 12);
    NoBits(u);
  }

  lemma NoBits(u: bv16)
    ensures Bits(u, 0) == 0
  {
  }

  lemma {:induction false} MaskedBit(u: bv16, i: bv16, j: bv16)
    requires i < 16 && j < 16
    ensures (u & ((1 << i) - 1)) & (1 << j) != 0 <==> j < i && u & (1 << j) != 0
  {
  }

  lemma {:induction false} BitOfLow(u: bv16, i: bv16, j: bv16)
    requires i < 16 && j < 16
    ensures Bit(Low(u, i), j) <==> j < i && Bit(u, j)
  {
    MaskedBit(u, i, j);
  }

  lemma {:induction false} BitsOfLow(u: bv16, i: bv16, n: bv16)
    requires i < 16 && n <= 16
    ensures Bits(Low(u, i), n) == Bits(u, if n < i then n else i)
    decreases n
  {
    hide Bit, Low;
    if n > 0 {
      BitsOfLow(u, i, n - 1);
      BitOfLow(u, i, n - 1);
    }
  }

  /** Masking and counting gives the number of code points of the block below the i-th. */
  lemma {:induction false} CountBelow(u: bv16, i: bv16)
    requires i < 16
    ensures Swar(Low(u, i)) as nat == Bits(u, i)
  {
    hide Low, Bits, Swar;
    CountIsBits(Low(u, i));
    BitsOfLow(u, i, 16);
  }

  // ---------------------------------------------------------------- the dictionary

  datatype Summary = Summary(indx: u16, used: bv16)

  /** The six page tables, and the table of codes that the ranks lead to. */
  datatype Dict = Dict(page00: seq<Summary>, page20: seq<Summary>, page30: seq<Summary>, page4e: seq<Summary>,
                       page9e: seq<Summary>, pageff: seq<Summary>, charset: seq<u16>)

  predicate Sized(d: Dict) {
    && |d.page00| == 70 && |d.page20| == 101 && |d.page30| == 35
    && |d.page4e| == 1263 && |d.page9e| == 27 && |d.pageff| == 15
  }

  const BLOCKS: nat := 1511

  /** The blocks of all pages, numbered from 0. */
  function Block(d: Dict, k: nat): Summary
    requires Sized(d) && k < BLOCKS
  {
    if k < 70 then d.page00[k] else if k < 171 then d.page20[k - 70] else if k < 206 then d.page30[k - 171]
    else if k < 1469 then d.page4e[k - 206] else if k < 1496 then d.page9e[k - 1469] else d.pageff[k - 1496]
  }

  /** The first code point of block k. */
  function Base(k: nat): nat {
    16 * (if k < 70 then k else if k < 171 then 0x200 + k - 70 else if k < 206 then 0x300 + k - 171
          else if k < 1469 then 0x4E0 + k - 206 else if k < 1496 then 0x9E0 + k - 1469 else 0xFF0 + k - 1496)
  }

  function BitN(used: bv16, i: nat): bool
    requires i < 16
  {
    Bit(used, i as bv16)
  }

  function BitsN(used: bv16, i: nat): nat
    requires i <= 16
  {
    Bits(used, i as bv16)
  }

  lemma BitsNext(used: bv16, i: nat)
    requires i < 16
    ensures BitsN(used, i + 1) == BitsN(used, i) + One(BitN(used, i)) && BitsN(used, 0) == 0
  {
    NextIndex(i);
  }

  lemma NextIndex(i: nat)
    requires i < 16
    ensures (i + 1) as bv16 == i as bv16 + 1 && (i + 1) as bv16 != 0 && (i + 1) as bv16 - 1 == i as bv16
  {
  }

  /** The code point is in a block, and its bit is set there. */
  ghost predicate Present(d: Dict, wc: nat)
    requires Sized(d)
  {
    exists k: nat, i: nat :: InBlock(d, k, i, wc)
  }

  ghost predicate InBlock(d: Dict, k: nat, i: nat, wc: nat)
    requires Sized(d)
  {
    k < BLOCKS && i < 16 && wc == Base(k) + i && BitN(Block(d, k).used, i)
  }

  /** The code points below n that are present, in increasing order. */
  ghost function Below(d: Dict, n: nat): seq<nat>
    requires Sized(d)
  {
    if n == 0 then [] else Below(d, n - 1) + (if Present(d, n - 1) then [n - 1] else [])
  }

  const LIMIT: nat := 0x1_0000

  /** Each number is the one before plus the size of the block before, across all pages. */
  ghost predicate Ranked(d: Dict) {
    && Sized(d)
    && Block(d, 0).indx == 0
    && (forall k: nat :: k + 1 < BLOCKS ==> NextRank(d, k))
    && |d.charset| == Block(d, BLOCKS - 1).indx + BitsN(Block(d, BLOCKS - 1).used, 16)
  }

  ghost predicate NextRank(d: Dict, k: nat)
    requires Sized(d) && k + 1 < BLOCKS
  {
    Block(d, k + 1).indx == Block(d, k).indx + BitsN(Block(d, k).used, 16)
  }

  lemma BasesApart(j: nat, k: nat)
    requires j < k < BLOCKS
    ensures Base(j) + 16 <= Base(k)
  {
  }

  lemma BaseLimit(k: nat)
    requires k < BLOCKS
    ensures Base(k) + 16 <= LIMIT - 16
  {
  }

  /** Where a code point sits is unique. */
  lemma {:induction false} PresentInBlock(d: Dict, k: nat, i: nat)
    requires Sized(d) && k < BLOCKS && i < 16
    ensures Present(d, Base(k) + i) <==> BitN(Block(d, k).used, i)
  {
    hide Base, BitN, Block;
    if BitN(Block(d, k).used, i) {
      assert InBlock(d, k, i, Base(k) + i);
    }
    if Present(d, Base(k) + i) {
      var j: nat, m: nat :| InBlock(d, j, m, Base(k) + i);
      if j < k {
        BasesApart(j, k);
      }
      if k < j {
        BasesApart(k, j);
      }
    }
  }

  /** Between two blocks nothing is present. */
  lemma {:induction false} AbsentBetween(d: Dict, k: nat, wc: nat)
    requires Sized(d) && k < BLOCKS && Base(k) + 16 <= wc && (k + 1 < BLOCKS ==> wc < Base(k + 1))
    ensures !Present(d, wc)
  {
    hide Base, BitN, Block;
    if Present(d, wc) {
      var j: nat, m: nat :| InBlock(d, j, m, wc);
      if j < k {
        BasesApart(j, k);
      } else if j > k + 1 {
        BasesApart(k + 1, j);
      }
    }
  }

  lemma {:induction false} NothingBetween(d: Dict, k: nat, n: nat)
    requires Sized(d) && k < BLOCKS && Base(k) + 16 <= n && (k + 1 < BLOCKS ==> n <= Base(k + 1))
    ensures Below(d, n) == Below(d, Base(k) + 16)
    decreases n
  {
    hide Base, Present;
    if n > Base(k) + 16 {
      NothingBetween(d, k, n - 1);
      AbsentBetween(d, k, n - 1);
    }
  }

  lemma {:induction false} CountInBlock(d: Dict, k: nat, i: nat)
    requires Sized(d) && k < BLOCKS && i <= 16
    ensures |Below(d, Base(k) + i)| == |Below(d, Base(k))| + BitsN(Block(d, k).used, i)
  {
    hide Base, Present, BitN, BitsN, Block;
    if i == 0 {
      BitsNext(Block(d, k).used, 0);
    } else {
      CountInBlock(d, k, i - 1);
      PresentInBlock(d, k, i - 1);
      BitsNext(Block(d, k).used, i - 1);
    }
  }

  lemma BaseZero()
    ensures Base(0) == 0
  {
  }

  /** The number stored with a block is the number of code points present below it. */
  lemma {:induction false} BlockRank(d: Dict, k: nat)
    requires Ranked(d) && k < BLOCKS
    ensures |Below(d, Base(k))| == Block(d, k).indx
  {
    hide Base, Present, BitN, BitsN, Block;
    if k == 0 {
      BaseZero();
    } else {
      BlockRank(d, k - 1);
      CountInBlock(d, k - 1, 16);
      BasesApart(k - 1, k);
      NothingBetween(d, k - 1, Base(k));
      assert NextRank(d, k - 1);
    }
  }

  /** The table of codes has one entry for every code point present. */
  lemma {:induction false} TableSize(d: Dict)
    requires Ranked(d)
    ensures |Below(d, LIMIT)| == |d.charset|
  {
    hide Base, Present, BitN, BitsN, Block;
    var k := BLOCKS - 1;
    BlockRank(d, k);
    CountInBlock(d, k, 16);
    BaseLimit(k);
    NothingBetween(d, k, LIMIT);
  }

  // ---------------------------------------------------------------- the list of code points

  lemma {:induction false} BelowIsSorted(d: Dict, n: nat)
    requires Sized(d)
    ensures forall wc: nat :: wc in Below(d, n) <==> wc < n && Present(d, wc)
    ensures forall i, j :: 0 <= i < j < |Below(d, n)| ==> Below(d, n)[i] < Below(d, n)[j]
    decreases n
  {
    hide Present;
    if n > 0 {
      BelowIsSorted(d, n - 1);
      var before := Below(d, n - 1);
      forall i | 0 <= i < |before| ensures before[i] < n - 1 {
        assert before[i] in before;
      }
    }
  }

  lemma {:induction false} BelowGrows(d: Dict, m: nat, n: nat)
    requires Sized(d) && m <= n
    ensures Below(d, m) <= Below(d, n)
    decreases n
  {
    hide Present;
    if m < n {
      BelowGrows(d, m, n - 1);
    }
  }

  /** The position of a code point in the list of all present ones is the number of those below it. */
  lemma {:induction false} PositionIsRank(d: Dict, wc: nat)
    requires Sized(d) && wc < LIMIT && Present(d, wc)
    ensures |Below(d, wc)| < |Below(d, LIMIT)| && Below(d, LIMIT)[|Below(d, wc)|] == wc
  {
    hide Present;
    BelowGrows(d, wc + 1, LIMIT);
    assert Below(d, wc + 1) == Below(d, wc) + [wc];
  }

  /** So ranks are strictly increasing in the code point. */
  lemma {:induction false} RankIncreases(d: Dict, a: nat, b: nat)
    requires Sized(d) && a < b && Present(d, a)
    ensures |Below(d, a)| < |Below(d, b)|
  {
    hide Present;
    BelowGrows(d, a + 1, b);
    assert Below(d, a + 1) == Below(d, a) + [a];
  }

  // ---------------------------------------------------------------- from code point to code

  const ILUNI: int := -1
  const TOOSMALL: int := -2

  datatype Found = NoBlock | Found(k: nat, i: nat)

  /** Which table entry the chain of range tests picks, as a block number. */
  function Locate(wc: nat): Found {
    if wc < 0x460 then Found(wc / 16, wc % 16)
    else if 0x2000 <= wc < 0x2650 then Found(70 + wc / 16 - 0x200, wc % 16)
    else if 0x3000 <= wc < 0x3230 then Found(171 + wc / 16 - 0x300, wc % 16)
    else if 0x4E00 <= wc < 0x9CF0 then Found(206 + wc / 16 - 0x4E0, wc % 16)
    else if 0x9E00 <= wc < 0x9FB0 then Found(1469 + wc / 16 - 0x9E0, wc % 16)
    else if 0xFF00 <= wc < 0xFFF0 then Found(1496 + wc / 16 - 0xFF0, wc % 16)
    else NoBlock
  }

  lemma {:induction false} Located(wc: nat)
    ensures var r := Locate(wc); r.Found? ==> r.k < BLOCKS && r.i < 16 && wc == Base(r.k) + r.i
  {
  }

  lemma {:induction false} NotLocated(wc: nat, k: nat, i: nat)
    requires Locate(wc).NoBlock? && k < BLOCKS && i < 16
    ensures wc != Base(k) + i
  {
  }

  lemma {:induction false} LocatePresent(d: Dict, wc: nat)
    requires Sized(d)
    ensures var f := Locate(wc);
            && (f.Found? ==> f.k < BLOCKS && f.i < 16 && wc == Base(f.k) + f.i)
            && (Present(d, wc) <==> f.Found? && BitN(Block(d, f.k).used, f.i))
  {
    hide Base, Block, BitN, Locate;
    var f := Locate(wc);
    Located(wc);
    if f.Found? {
      PresentInBlock(d, f.k, f.i);
    } else if Present(d, wc) {
      var k: nat, i: nat :| InBlock(d, k, i, wc);
      NotLocated(wc, k, i);
    }
  }

  /** Which code points are present, page by page: entry by the upper digits, bit by the last one from the lowest on. */
  lemma {:induction false} PresentIs(d: Dict, wc: nat)
    requires Sized(d)
    ensures Present(d, wc) <==>
              || (wc < 0x460 && BitN(d.page00[wc / 16].used, wc % 16))
              || (0x2000 <= wc < 0x2650 && BitN(d.page20[wc / 16 - 0x200].used, wc % 16))
              || (0x3000 <= wc < 0x3230 && BitN(d.page30[wc / 16 - 0x300].used, wc % 16))
              || (0x4E00 <= wc < 0x9CF0 && BitN(d.page4e[wc / 16 - 0x4E0].used, wc % 16))
              || (0x9E00 <= wc < 0x9FB0 && BitN(d.page9e[wc / 16 - 0x9E0].used, wc % 16))
              || (0xFF00 <= wc < 0xFFF0 && BitN(d.pageff[wc / 16 - 0xFF0].used, wc % 16))
  {
    hide BitN, Present;
    LocatePresent(d, wc);
  }

  /**
    gb2312_wctomb. A code point that is present is written as the code at its position in the
    sorted list of all present code points; it fails exactly on absent ones.
   */
  method Wctomb(d: Dict, r: array<byte>, wc: nat, n: int) returns (ret: int)
    requires Ranked(d) && (n >= 2 ==> r.Length >= 2)
    modifies r
    ensures n < 2 ==> ret == TOOSMALL
    ensures n >= 2 ==> ret == if Present(d, wc) then 2 else ILUNI
    ensures ret != 2 ==> r[..] == old(r[..])
    ensures ret == 2 ==>
              && wc < LIMIT && |Below(d, wc)| < |d.charset| == |Below(d, LIMIT)|
              && Below(d, LIMIT)[|Below(d, wc)|] == wc
              && r[0] == d.charset[|Below(d, wc)|] / 256 && r[1] == d.charset[|Below(d, wc)|] % 256
              && r[2..] == old(r[2..])
  {
    hide Base, Block, BitN, Locate, Ranked, Present, BitsN, Swar;
    if n < 2 {
      return TOOSMALL;
    }
    RankedSized(d);
    LocatePresent(d, wc);
    var f := Locate(wc);
    if f.NoBlock? {
      return ILUNI;
    }
    var summary := Block(d, f.k);
    if !BitN(summary.used, f.i) {
      return ILUNI;
    }
    CountInBlock(d, f.k, f.i);
    BlockRank(d, f.k);
    var used := Rank(summary, f.i);
    BaseLimit(f.k);
    PositionIsRank(d, wc);
    TableSize(d);
    var c := d.charset[summary.indx as nat + used];
    r[0], r[1] := c / 256, c % 256;
    ret := 2;
  }

  lemma RankedSized(d: Dict)
    requires Ranked(d)
    ensures Sized(d)
  {
  }

  /** The number of code points of the block below the i-th, by masking and adding up. */
  method Rank(summary: Summary, i: nat) returns (used: nat)
    requires i < 16
    ensures used == BitsN(summary.used, i)
  {
    SmallIndex(i);
    CountBelow(summary.used, i as bv16);
    used := Swar(Low(summary.used, i as bv16)) as nat;
  }

  lemma SmallIndex(i: nat)
    requires i < 16
    ensures (i as bv16) < 16
  {
  }

  /** Two code points that are both present never get the same entry of the table. */
  lemma {:induction false} RanksDiffer(d: Dict, a: nat, b: nat)
    requires Sized(d) && a != b && Present(d, a) && Present(d, b)
    ensures |Below(d, a)| != |Below(d, b)|
  {
    hide Present;
    if a < b {
      RankIncreases(d, a, b);
    } else {
      RankIncreases(d, b, a);
    }
  }

  // ---------------------------------------------------------------- the last page as it is

  /** gb2312_uni2indx_pageff. */
  const PAGEFF: seq<Summary> := [
    Summary(7347, 0xFFFE), Summary(7362, 0xFFFF), Summary(7378, 0xFFFF), Summary(7394, 0xFFFF),
    Summary(7410, 0xFFFF), Summary(7426, 0x7FFF), Summary(7441, 0), Summary(7441, 0),
    Summary(7441, 0), Summary(7441, 0), Summary(7441, 0), Summary(7441, 0),
    Summary(7441, 0), Summary(7441, 0), Summary(7441, 0x2B)]

  const CHARSET_SIZE: nat := 7445

  /** The numbers of the last page continue each other, up to the size of the table of codes. */
  lemma {:induction false} LastPageIsRanked()
    ensures |PAGEFF| == 15
    ensures forall k :: 0 <= k < 14 ==> PAGEFF[k + 1].indx as nat == PAGEFF[k].indx as nat + BitsN(PAGEFF[k].used, 16)
    ensures CHARSET_SIZE == PAGEFF[14].indx as nat + BitsN(PAGEFF[14].used, 16)
  {
    hide BitsN;
    MaskSizes();
  }

  lemma {:induction false} SizeOfMask(u: bv16)
    ensures BitsN(u, 16) == Swar(u) as nat
  {
    hide Bits, Swar;
    CountIsBits(u);
    assert 16 as bv16 == 16;
  }

  lemma {:induction false} MaskSizes()
    ensures BitsN(0xFFFE, 16) == 15 && BitsN(0xFFFF, 16) == 16 && BitsN(0x7FFF, 16) == 15
    ensures BitsN(0, 16) == 0 && BitsN(0x2B, 16) == 4
  {
    hide BitsN;
    SizeOfMask(0xFFFE);
    SizeOfMask(0xFFFF);
    SizeOfMask(0x7FFF);
    SizeOfMask(0);
    SizeOfMask(0x2B);
  }

  // ---------------------------------------------------------------- from code to code point

  const NOT_MAPPED: u16 := 0xFFFD

  /** The two tables from codes to code points, for rows 0x21 to 0x29 and 0x30 to 0x77. */
  datatype Codes = Codes(page21: seq<u16>, page30: seq<u16>)

  predicate ValidRow(c1: nat) { 0x21 <= c1 <= 0x29 || 0x30 <= c1 <= 0x77 }

  predicate ValidColumn(c2: nat) { 0x21 <= c2 < 0x7F }

  /** The entry for a row and a column, NOT_MAPPED where the first table ends early. */
  function Entry(t: Codes, c1: nat, c2: nat): u16
    requires |t.page21| == 831 && |t.page30| == 6768 && ValidRow(c1) && ValidColumn(c2)
  {
    var i := 94 * (c1 - 0x21) + (c2 - 0x21);
    if i < 831 then t.page21[i] else if i < 1410 then NOT_MAPPED else t.page30[i - 1410]
  }

  /**
    gb2312_mbtowc: succeeds exactly for a valid row and column with a mapped entry, whatever the top
    bits of the two bytes; the tables are never read outside their bounds.
   */
  method Mbtowc(t: Codes, s: seq<byte>, n: int) returns (ret: int, wc: nat)
    requires |t.page21| == 831 && |t.page30| == 6768 && |s| >= 1 && (n >= 2 ==> |s| >= 2)
    ensures ret == 2 <==> n >= 2 && var c1, c2 := Num(s, 0) % 128, Num(s, 1) % 128;
                                    ValidRow(c1) && ValidColumn(c2) && Entry(t, c1, c2) != NOT_MAPPED
    ensures ret == 2 ==> wc == Entry(t, Num(s, 0) % 128, Num(s, 1) % 128)
    ensures ret != 2 ==> ret == 0
  {
    ret, wc := 0, 0;
    var c1 := Num(s, 0) % 128;
    if (c1 >= 0x21 && c1 <= 0x29) || (c1 >= 0x30 && c1 <= 0x77) {
      if n >= 2 {
        var c2 := Num(s, 1) % 128;
        if c2 >= 0x21 && c2 < 0x7F {
          var i := 94 * (c1 - 0x21) + (c2 - 0x21);
          var code: u16 := NOT_MAPPED;
          if i < 1410 {
            if i < 831 {
              code := t.page21[i];
            }
          } else if i < 8178 {
            code := t.page30[i - 1410];
          }
          if code != NOT_MAPPED {
            return 2, code;
          }
        }
      }
    }
  }

  /** Every code of the table leads back to the code point it stands for. */
  ghost predicate Inverse(d: Dict, t: Codes)
    requires Ranked(d) && |t.page21| == 831 && |t.page30| == 6768
  {
    |Below(d, LIMIT)| == |d.charset| &&
    forall k :: 0 <= k < |d.charset| ==>
      var c1, c2 := d.charset[k] / 256, d.charset[k] % 256;
      && ValidRow(c1) && ValidColumn(c2) && Entry(t, c1, c2) == Below(d, LIMIT)[k] && Entry(t, c1, c2) != NOT_MAPPED
  }

  /**
    When the tables agree with each other, encoding a present code point and decoding the two bytes
    gives it back, also with the top bits of the bytes set.
   */
  method EncodeDecode(d: Dict, t: Codes, wc: nat) returns (back: nat)
    requires Ranked(d) && |t.page21| == 831 && |t.page30| == 6768 && Inverse(d, t) && Present(d, wc)
    ensures back == wc
  {
    hide Ranked, Present, Entry;
    RankedSized(d);
    var r := new byte[2];
    var ret := Wctomb(d, r, wc, 2);
    ghost var c := d.charset[|Below(d, wc)|];
    var s: seq<byte> := [r[0] % 128 + 128, r[1] % 128 + 128];
    var got;
    got, back := Mbtowc(t, s, 2);
  }
}
