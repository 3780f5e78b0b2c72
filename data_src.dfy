/** The Linux perf `union perf_mem_data_src` word attached to each memory
    sample, the library's classification of the level that served the
    access, and the human-readable level and opcode strings.

    The word is a 64-bit little-endian bitfield: bits 0-4 hold `mem_op` and
    bits 5-18 hold `mem_lvl`; every `PERF_MEM_LVL_*` / `PERF_MEM_OP_*`
    constant is one bit of its field. */
module DataSrc {

  const PERF_MEM_OP_NA: bv64 := 0x01
  const PERF_MEM_OP_LOAD: bv64 := 0x02
  const PERF_MEM_OP_STORE: bv64 := 0x04
  const PERF_MEM_OP_PFETCH: bv64 := 0x08
  const PERF_MEM_OP_EXEC: bv64 := 0x10

  const PERF_MEM_LVL_NA: bv64 := 0x01
  const PERF_MEM_LVL_HIT: bv64 := 0x02
  const PERF_MEM_LVL_MISS: bv64 := 0x04
  const PERF_MEM_LVL_L1: bv64 := 0x08
  const PERF_MEM_LVL_LFB: bv64 := 0x10
  const PERF_MEM_LVL_L2: bv64 := 0x20
  const PERF_MEM_LVL_L3: bv64 := 0x40
  const PERF_MEM_LVL_LOC_RAM: bv64 := 0x80
  const PERF_MEM_LVL_REM_RAM1: bv64 := 0x100
  const PERF_MEM_LVL_REM_RAM2: bv64 := 0x200
  const PERF_MEM_LVL_REM_CCE1: bv64 := 0x400
  const PERF_MEM_LVL_REM_CCE2: bv64 := 0x800
  const PERF_MEM_LVL_IO: bv64 := 0x1000
  const PERF_MEM_LVL_UNC: bv64 := 0x2000

  /** The `mem_op` bitfield (5 bits). */
  function MemOp(src: bv64): (op: bv64)
    ensures op < 0x20
  {
    src & 0x1f
  }

  /** The `mem_lvl` bitfield (14 bits, starting at bit 5). */
  function MemLvl(src: bv64): (lvl: bv64)
    ensures lvl < 0x4000
  {
    (src >> 5) & 0x3fff
  }

  /** `field & flag`, read as a C condition. */
  predicate Has(field: bv64, flag: bv64)
  {
    field & flag != 0
  }

  /** Bit k of the word. */
  predicate Bit(w: bv64, k: nat)
    requires k < 64
  {
    (w >> k) & 1 == 1
  }

  /** Bit i of the `mem_lvl` field, that is bit 5 + i of the word. */
  predicate LvlBit(w: bv64, i: nat)
    requires i < 14
  {
    Bit(w, 5 + i)
  }

  // ---------------------------------------------------------------------
  // A reference view: the set of bit positions of `mem_lvl` that are set,
  // read straight off the word. Position i of `mem_lvl` is bit 5 + i.

  const NA_BIT: nat := 0
  const HIT_BIT: nat := 1
  const MISS_BIT: nat := 2
  const L1_BIT: nat := 3
  const LFB_BIT: nat := 4
  const L2_BIT: nat := 5
  const L3_BIT: nat := 6
  const LOC_RAM_BIT: nat := 7
  const REM_RAM1_BIT: nat := 8
  const REM_RAM2_BIT: nat := 9
  const REM_CCE1_BIT: nat := 10

  /** The level bits set in a data-source word. */
  function LevelBits(src: bv64): (s: set<nat>)
    ensures forall i :: i in s ==> i < 14
  {
    set i: nat | i < 14 && LvlBit(src, i)
  }

  /** Each level constant tests exactly its own bit of the word. */
  lemma LevelFlagIsBit(src: bv64)
    ensures Has(MemLvl(src), PERF_MEM_LVL_NA) <==> NA_BIT in LevelBits(src)
    ensures Has(MemLvl(src), PERF_MEM_LVL_HIT) <==> HIT_BIT in LevelBits(src)
    ensures Has(MemLvl(src), PERF_MEM_LVL_MISS) <==> MISS_BIT in LevelBits(src)
    ensures Has(MemLvl(src), PERF_MEM_LVL_L1) <==> L1_BIT in LevelBits(src)
    ensures Has(MemLvl(src), PERF_MEM_LVL_LFB) <==> LFB_BIT in LevelBits(src)
    ensures Has(MemLvl(src), PERF_MEM_LVL_L2) <==> L2_BIT in LevelBits(src)
    ensures Has(MemLvl(src), PERF_MEM_LVL_L3) <==> L3_BIT in LevelBits(src)
    ensures Has(MemLvl(src), PERF_MEM_LVL_LOC_RAM) <==> LOC_RAM_BIT in LevelBits(src)
    ensures Has(MemLvl(src), PERF_MEM_LVL_REM_RAM1) <==> REM_RAM1_BIT in LevelBits(src)
    ensures Has(MemLvl(src), PERF_MEM_LVL_REM_RAM2) <==> REM_RAM2_BIT in LevelBits(src)
    ensures Has(MemLvl(src), PERF_MEM_LVL_REM_CCE1) <==> REM_CCE1_BIT in LevelBits(src)
  {
  }

  // ---------------------------------------------------------------------
  // The `is_served_by_*` classification.

  /** `is_served_by_local_cache`. */
  predicate IsServedByLocalCache(src: bv64)
  {
    var lvl := MemLvl(src);
    Has(lvl, PERF_MEM_LVL_HIT)
    && (Has(lvl, PERF_MEM_LVL_L1) || Has(lvl, PERF_MEM_LVL_LFB)
        || Has(lvl, PERF_MEM_LVL_L2) || Has(lvl, PERF_MEM_LVL_L3))
  }

  /** `is_served_by_local_memory`. */
  predicate IsServedByLocalMemory(src: bv64)
  {
    var lvl := MemLvl(src);
    Has(lvl, PERF_MEM_LVL_HIT) && Has(lvl, PERF_MEM_LVL_LOC_RAM)
  }

  /** `is_served_by_remote_cache_or_local_memory`. */
  predicate IsServedByRemoteCacheOrLocalMemory(src: bv64)
  {
    var lvl := MemLvl(src);
    Has(lvl, PERF_MEM_LVL_HIT) && Has(lvl, PERF_MEM_LVL_REM_CCE1)
  }

  /** `is_served_by_remote_memory`. */
  predicate IsServedByRemoteMemory(src: bv64)
  {
    var lvl := MemLvl(src);
    Has(lvl, PERF_MEM_LVL_HIT)
    && (Has(lvl, PERF_MEM_LVL_REM_RAM1) || Has(lvl, PERF_MEM_LVL_REM_RAM2))
  }

  /** `is_served_by_local_NA_miss`. */
  predicate IsServedByLocalNAMiss(src: bv64)
  {
    var lvl := MemLvl(src);
    Has(lvl, PERF_MEM_LVL_NA)
    || (Has(lvl, PERF_MEM_LVL_MISS) && Has(lvl, PERF_MEM_LVL_L3))
  }

  /** The tiers, stated on the set of level bits of the word. */
  lemma TiersByLevelBits(src: bv64)
    ensures var s := LevelBits(src);
      IsServedByLocalCache(src) <==>
        HIT_BIT in s && (L1_BIT in s || LFB_BIT in s || L2_BIT in s || L3_BIT in s)
    ensures var s := LevelBits(src);
      IsServedByLocalMemory(src) <==> HIT_BIT in s && LOC_RAM_BIT in s
    ensures var s := LevelBits(src);
      IsServedByRemoteCacheOrLocalMemory(src) <==> HIT_BIT in s && REM_CCE1_BIT in s
    ensures var s := LevelBits(src);
      IsServedByRemoteMemory(src) <==> HIT_BIT in s && (REM_RAM1_BIT in s || REM_RAM2_BIT in s)
    ensures var s := LevelBits(src);
      IsServedByLocalNAMiss(src) <==> NA_BIT in s || (MISS_BIT in s && L3_BIT in s)
  {
    LevelFlagIsBit(src);
  }

  /** Flipping the HIT bit of a word. */
  function ToggleHit(src: bv64): (t: bv64)
    ensures Has(MemLvl(t), PERF_MEM_LVL_HIT) <==> !Has(MemLvl(src), PERF_MEM_LVL_HIT)
    ensures MemLvl(t) & !PERF_MEM_LVL_HIT == MemLvl(src) & !PERF_MEM_LVL_HIT
    ensures MemOp(t) == MemOp(src)
  {
    src ^ (PERF_MEM_LVL_HIT << 5)
  }

  /** Without the HIT bit no tier other than NA/miss applies. */
  lemma NoHitNoTier(src: bv64)
    requires !Has(MemLvl(src), PERF_MEM_LVL_HIT)
    ensures !IsServedByLocalCache(src) && !IsServedByLocalMemory(src)
    ensures !IsServedByRemoteCacheOrLocalMemory(src) && !IsServedByRemoteMemory(src)
  {
  }

  /** The NA/miss tier does not look at the HIT bit. */
  lemma NAMissIgnoresHit(src: bv64)
    ensures IsServedByLocalNAMiss(ToggleHit(src)) == IsServedByLocalNAMiss(src)
  {
    var a, b := MemLvl(src), MemLvl(ToggleHit(src));
    assert Has(a, PERF_MEM_LVL_NA) == Has(b, PERF_MEM_LVL_NA);
    assert Has(a, PERF_MEM_LVL_MISS) == Has(b, PERF_MEM_LVL_MISS);
    assert Has(a, PERF_MEM_LVL_L3) == Has(b, PERF_MEM_LVL_L3);
  }

  /** The tiers are not exclusive over all words: one with HIT, L1 and
      LOC_RAM set counts both as served by the local cache and by local
      memory. */
  lemma CacheAndMemoryOverlap()
    ensures var src := (PERF_MEM_LVL_HIT | PERF_MEM_LVL_L1 | PERF_MEM_LVL_LOC_RAM) << 5;
      IsServedByLocalCache(src) && IsServedByLocalMemory(src)
  {
  }

  // ---------------------------------------------------------------------
  // `get_data_src_level`.

  /** The piece `concat` appends when a condition holds. */
  function Piece(cond: bool, name: string): (r: string)
  {
    if cond then name else ""
  }

  /** The level name chosen by the `if ... else if` chain, or "". */
  function LevelName(lvl: bv64): string
  {
    if Has(lvl, PERF_MEM_LVL_L1) then "L1"
    else if Has(lvl, PERF_MEM_LVL_LFB) then "LFB"
    else if Has(lvl, PERF_MEM_LVL_L2) then "L2"
    else if Has(lvl, PERF_MEM_LVL_L3) then "L3"
    else if Has(lvl, PERF_MEM_LVL_LOC_RAM) then "Local RAM"
    else if Has(lvl, PERF_MEM_LVL_REM_RAM1) then "Remote RAM 1 hop"
    else if Has(lvl, PERF_MEM_LVL_REM_RAM2) then "Remote RAM 2 hops"
    else if Has(lvl, PERF_MEM_LVL_REM_CCE1) then "Remote Cache 1 hop"
    else if Has(lvl, PERF_MEM_LVL_REM_CCE2) then "Remote Cache 2 hops"
    else if Has(lvl, PERF_MEM_LVL_IO) then "I/O Memory"
    else if Has(lvl, PERF_MEM_LVL_UNC) then "Uncached Memory"
    else ""
  }

  /** The " Hit" / " Miss" suffix. */
  function HitMissSuffix(lvl: bv64): string
  {
    if Has(lvl, PERF_MEM_LVL_HIT) then " Hit"
    else if Has(lvl, PERF_MEM_LVL_MISS) then " Miss"
    else ""
  }

  /** `get_data_src_level`: "NA" when NA is set, then at most one level
      name, then " Hit" or " Miss". */
  function GetDataSrcLevel(src: bv64): (r: string)
  {
    var lvl := MemLvl(src);
    "" + Piece(Has(lvl, PERF_MEM_LVL_NA), "NA") + LevelName(lvl) + HitMissSuffix(lvl)
  }

  /** The level names in priority order, each with its flag. */
  const LEVEL_PRIORITY: seq<(bv64, string)> := [
    (PERF_MEM_LVL_L1, "L1"),
    (PERF_MEM_LVL_LFB, "LFB"),
    (PERF_MEM_LVL_L2, "L2"),
    (PERF_MEM_LVL_L3, "L3"),
    (PERF_MEM_LVL_LOC_RAM, "Local RAM"),
    (PERF_MEM_LVL_REM_RAM1, "Remote RAM 1 hop"),
    (PERF_MEM_LVL_REM_RAM2, "Remote RAM 2 hops"),
    (PERF_MEM_LVL_REM_CCE1, "Remote Cache 1 hop"),
    (PERF_MEM_LVL_REM_CCE2, "Remote Cache 2 hops"),
    (PERF_MEM_LVL_IO, "I/O Memory"),
    (PERF_MEM_LVL_UNC, "Uncached Memory")
  ]

  /** The `else if` chain names the first level of the priority table whose
      flag is set. */
  lemma LevelNameIsFirstSet(lvl: bv64, k: nat)
    requires k < |LEVEL_PRIORITY| && Has(lvl, LEVEL_PRIORITY[k].0)
    requires forall j :: 0 <= j < k ==> !Has(lvl, LEVEL_PRIORITY[j].0)
    ensures LevelName(lvl) == LEVEL_PRIORITY[k].1
  {
    assert LEVEL_PRIORITY[0].0 == PERF_MEM_LVL_L1;
    assert LEVEL_PRIORITY[1].0 == PERF_MEM_LVL_LFB;
    assert LEVEL_PRIORITY[2].0 == PERF_MEM_LVL_L2;
    assert LEVEL_PRIORITY[3].0 == PERF_MEM_LVL_L3;
    assert LEVEL_PRIORITY[4].0 == PERF_MEM_LVL_LOC_RAM;
    assert LEVEL_PRIORITY[5].0 == PERF_MEM_LVL_REM_RAM1;
    assert LEVEL_PRIORITY[6].0 == PERF_MEM_LVL_REM_RAM2;
    assert LEVEL_PRIORITY[7].0 == PERF_MEM_LVL_REM_CCE1;
    assert LEVEL_PRIORITY[8].0 == PERF_MEM_LVL_REM_CCE2;
    assert LEVEL_PRIORITY[9].0 == PERF_MEM_LVL_IO;
    assert LEVEL_PRIORITY[10].0 == PERF_MEM_LVL_UNC;
  }

  /** With no level flag of the table set, no level name is written. */
  lemma LevelNameEmpty(lvl: bv64)
    requires forall j :: 0 <= j < |LEVEL_PRIORITY| ==> !Has(lvl, LEVEL_PRIORITY[j].0)
    ensures LevelName(lvl) == ""
  {
    assert LEVEL_PRIORITY[0].0 == PERF_MEM_LVL_L1;
    assert LEVEL_PRIORITY[1].0 == PERF_MEM_LVL_LFB;
    assert LEVEL_PRIORITY[2].0 == PERF_MEM_LVL_L2;
    assert LEVEL_PRIORITY[3].0 == PERF_MEM_LVL_L3;
    assert LEVEL_PRIORITY[4].0 == PERF_MEM_LVL_LOC_RAM;
    assert LEVEL_PRIORITY[5].0 == PERF_MEM_LVL_REM_RAM1;
    assert LEVEL_PRIORITY[6].0 == PERF_MEM_LVL_REM_RAM2;
    assert LEVEL_PRIORITY[7].0 == PERF_MEM_LVL_REM_CCE1;
    assert LEVEL_PRIORITY[8].0 == PERF_MEM_LVL_REM_CCE2;
    assert LEVEL_PRIORITY[9].0 == PERF_MEM_LVL_IO;
    assert LEVEL_PRIORITY[10].0 == PERF_MEM_LVL_UNC;
  }

  /** The middle piece of the level string is either nothing, exactly when
      no level flag of the table is set, or the name of one set flag of the
      table. */
  lemma LevelNameFromTable(lvl: bv64)
    ensures LevelName(lvl) == "" <==> forall j :: 0 <= j < |LEVEL_PRIORITY| ==> !Has(lvl, LEVEL_PRIORITY[j].0)
    ensures LevelName(lvl) != "" ==>
      exists k :: 0 <= k < |LEVEL_PRIORITY| && Has(lvl, LEVEL_PRIORITY[k].0) && LevelName(lvl) == LEVEL_PRIORITY[k].1
  {
    var k := FirstSetLevel(lvl, 0);
    if k == |LEVEL_PRIORITY| {
      LevelNameEmpty(lvl);
    } else {
      LevelNameIsFirstSet(lvl, k);
      assert LEVEL_PRIORITY[k].1 != "";
    }
  }

  /** The first index from `j` on of a table flag set in `lvl`, or the
      table's length. */
  function FirstSetLevel(lvl: bv64, j: nat): (k: nat)
    requires j <= |LEVEL_PRIORITY|
    requires forall i :: 0 <= i < j ==> !Has(lvl, LEVEL_PRIORITY[i].0)
    ensures j <= k <= |LEVEL_PRIORITY|
    ensures forall i :: 0 <= i < k ==> !Has(lvl, LEVEL_PRIORITY[i].0)
    ensures k < |LEVEL_PRIORITY| ==> Has(lvl, LEVEL_PRIORITY[k].0)
    decreases |LEVEL_PRIORITY| - j
  {
    if j == |LEVEL_PRIORITY| || Has(lvl, LEVEL_PRIORITY[j].0) then j
    else FirstSetLevel(lvl, j + 1)
  }

  /** Every level name has at least two characters; none starts with 'N',
      ends with 't' or has 's' as its last but one character. */
  lemma LevelNameEnds(lvl: bv64)
    ensures var name := LevelName(lvl);
      name == "" || (|name| >= 2 && name[0] != 'N' && name[|name| - 1] != 't' && name[|name| - 2] != 's')
  {
  }

  /** The level string is its NA part, its level name and its hit/miss
      suffix, in that order. */
  lemma LevelSplit(src: bv64)
    ensures var lvl := MemLvl(src);
      GetDataSrcLevel(src) == Piece(Has(lvl, PERF_MEM_LVL_NA), "NA") + LevelName(lvl) + HitMissSuffix(lvl)
  {
    var na := Piece(Has(MemLvl(src), PERF_MEM_LVL_NA), "NA");
    assert "" + na == na;
  }

  /** The level string starts with "NA" exactly when the NA bit is set. */
  lemma LevelStartsWithNAIff(src: bv64)
    ensures var r := GetDataSrcLevel(src);
      (|r| >= 2 && r[..2] == "NA") <==> NA_BIT in LevelBits(src)
  {
    LevelFlagIsBit(src);
    LevelSplit(src);
    var lvl := MemLvl(src);
    LevelNameEnds(lvl);
    var na, name, sfx := Piece(Has(lvl, PERF_MEM_LVL_NA), "NA"), LevelName(lvl), HitMissSuffix(lvl);
    var r := GetDataSrcLevel(src);
    if na == "NA" {
      assert r[..2] == na;
    } else if |r| >= 2 {
      assert sfx == "" || sfx[0] == ' ';
      assert r[0] == (if name != "" then name[0] else sfx[0]);
    }
  }

  /** The level string ends with " Hit" exactly when the HIT bit is set. */
  lemma LevelEndsWithHitIff(src: bv64)
    ensures var r := GetDataSrcLevel(src);
      (|r| >= 4 && r[|r| - 4..] == " Hit") <==> HIT_BIT in LevelBits(src)
  {
    LevelFlagIsBit(src);
    LevelSplit(src);
    var lvl := MemLvl(src);
    LevelNameEnds(lvl);
    var na, name, sfx := Piece(Has(lvl, PERF_MEM_LVL_NA), "NA"), LevelName(lvl), HitMissSuffix(lvl);
    var r := GetDataSrcLevel(src);
    if sfx == " Hit" {
      assert r[|r| - 4..] == sfx;
    } else if |r| >= 4 {
      assert sfx == "" || sfx[|sfx| - 1] == 's';
      assert r[|r| - 1] == (if sfx != "" then sfx[|sfx| - 1] else if name != "" then name[|name| - 1] else 'A');
    }
  }

  /** The level string ends with " Miss" exactly when the MISS bit is set
      and the HIT bit is not. */
  lemma LevelEndsWithMissIff(src: bv64)
    ensures var r := GetDataSrcLevel(src);
      (|r| >= 5 && r[|r| - 5..] == " Miss") <==> (MISS_BIT in LevelBits(src) && HIT_BIT !in LevelBits(src))
  {
    LevelFlagIsBit(src);
    LevelSplit(src);
    var lvl := MemLvl(src);
    LevelNameEnds(lvl);
    var na, name, sfx := Piece(Has(lvl, PERF_MEM_LVL_NA), "NA"), LevelName(lvl), HitMissSuffix(lvl);
    var r := GetDataSrcLevel(src);
    if sfx == " Miss" {
      assert r[|r| - 5..] == sfx;
    } else if |r| >= 5 {
      assert sfx == "" || sfx == " Hit";
      assert name != "" ==> r[|r| - 2] == (if sfx != "" then 'i' else name[|name| - 2]);
      assert r[|r| - 2] != 's';
    }
  }

  // ---------------------------------------------------------------------
  // `get_data_src_opcode`.

  /** `get_data_src_opcode`: starting from the empty string, append the
      name of each set `mem_op` bit, in the fixed order NA, Load, Store,
      Prefetch, Exec code. */
  function GetDataSrcOpcode(src: bv64): (r: string)
  {
    var op := MemOp(src);
    ""
    + Piece(Has(op, PERF_MEM_OP_NA), "NA")
    + Piece(Has(op, PERF_MEM_OP_LOAD), "Load")
    + Piece(Has(op, PERF_MEM_OP_STORE), "Store")
    + Piece(Has(op, PERF_MEM_OP_PFETCH), "Prefetch")
    + Piece(Has(op, PERF_MEM_OP_EXEC), "Exec code")
  }

  /** The opcode names in order, each with its `mem_op` flag. */
  const OPCODE_NAMES: seq<(bv64, string)> := [
    (PERF_MEM_OP_NA, "NA"),
    (PERF_MEM_OP_LOAD, "Load"),
    (PERF_MEM_OP_STORE, "Store"),
    (PERF_MEM_OP_PFETCH, "Prefetch"),
    (PERF_MEM_OP_EXEC, "Exec code")
  ]

  /** acc followed by the names of the table entries from k on whose flag
      is set in the field. */
  function AppendSetNames(field: bv64, table: seq<(bv64, string)>, k: nat, acc: string): string
    requires k <= |table|
    decreases |table| - k
  {
    if k == |table| then acc
    else AppendSetNames(field, table, k + 1, acc + Piece(Has(field, table[k].0), table[k].1))
  }

  /** The opcode string is the names of the set `mem_op` flags in table
      order. */
  lemma OpcodeByTable(src: bv64)
    ensures GetDataSrcOpcode(src) == AppendSetNames(MemOp(src), OPCODE_NAMES, 0, "")
  {
    var t, op := OPCODE_NAMES, MemOp(src);
    var p0 := "" + Piece(Has(op, PERF_MEM_OP_NA), "NA");
    var p1 := p0 + Piece(Has(op, PERF_MEM_OP_LOAD), "Load");
    var p2 := p1 + Piece(Has(op, PERF_MEM_OP_STORE), "Store");
    var p3 := p2 + Piece(Has(op, PERF_MEM_OP_PFETCH), "Prefetch");
    var p4 := p3 + Piece(Has(op, PERF_MEM_OP_EXEC), "Exec code");
    assert AppendSetNames(op, t, 4, p3) == p4;
    assert AppendSetNames(op, t, 3, p2) == p4;
    assert AppendSetNames(op, t, 2, p1) == p4;
    assert AppendSetNames(op, t, 1, p0) == p4;
  }

  /** The opcode string is empty exactly when no `mem_op` bit is set. */
  lemma OpcodeEmptyIff(src: bv64)
    ensures GetDataSrcOpcode(src) == "" <==> MemOp(src) == 0
  {
  }
}
