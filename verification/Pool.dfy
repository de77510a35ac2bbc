/**
 The pool allocator (`gu/mem.c`): aligned objects grow from the left edge of
 the current chunk, unaligned ones from the right edge, large ones get a chunk
 of their own.  Positions are offsets from the start of a chunk; where the
 chunks themselves are is up to `malloc`.
 */
module Pool {
  import opened Arith
  import opened Memory

  const CHUNK_MAX_SIZE := 8192
  const MAX_SHARED_ALLOC := 512
  const POOL_HEADER := 32
  const CHUNK_HEADER := 8
  const MAX_ALIGN := 16
  const POOL_ALIGN := 8

  // ----------------------------------------------------------------------- alignment

  predicate IsPow2(n: nat) {
    n == 1 || (n > 1 && n % 2 == 0 && IsPow2(n / 2))
  }

  /** The least multiple of `a` at or above `p`. */
  function AlignForward(p: nat, a: nat): nat
    requires a > 0
  {
    (p + (a - 1)) / a * a
  }

  lemma MulMod(q: int, a: int)
    requires a > 0
    ensures q * a % a == 0
  {
    assert q * a == a * q + 0;
    UniqueDivMod(q * a, a, q, 0);
  }

  lemma AlignForwardOk(p: nat, a: nat)
    requires a > 0
    ensures p <= AlignForward(p, a) < p + a && AlignForward(p, a) % a == 0
    ensures p % a == 0 ==> AlignForward(p, a) == p
  {
    var x := p + (a - 1);
    var q, k := x / a, p / a;
    assert x == a * q + x % a && q * a == a * q;
    MulMod(q, a);
    if p % a == 0 {
      assert x == a * k + (a - 1);
      UniqueDivMod(x, a, k, a - 1);
    }
  }

  /** Of two powers of two the smaller divides the larger. */
  lemma {:induction false} PowersDivide(a: nat, b: nat)
    requires IsPow2(a) && IsPow2(b) && a <= b
    ensures b % a == 0
    decreases b
  {
    if a == b {
      MulMod(1, a);
    } else {
      PowersOrdered(a, b);
      PowersDivide(a, b / 2);
      MultipleOfMultiple(2, b / 2, a);
    }
  }

  /** There is no power of two strictly between half of one and itself. */
  lemma {:induction false} PowersOrdered(a: nat, b: nat)
    requires IsPow2(a) && IsPow2(b) && a < b
    ensures a <= b / 2
    decreases a
  {
    if a > 1 {
      assert b > 1;
      PowersOrdered(a / 2, b / 2);
    }
  }

  lemma MultipleOfMultiple(m: int, p: int, a: int)
    requires a > 0 && p % a == 0
    ensures m * p % a == 0
  {
    var k := p / a;
    assert m * p == (m * k) * a by { assert p == a * k; }
    MulMod(m * k, a);
  }

  lemma DividesThrough(x: int, b: int, a: int)
    requires a > 0 && b > 0 && x % b == 0 && b % a == 0
    ensures x % a == 0
  {
    var k := x / b;
    assert x == k * b;
    MultipleOfMultiple(k, b, a);
  }

  lemma SumMultiple(x: int, y: int, a: int)
    requires a > 0 && x % a == 0 && y % a == 0
    ensures (x + y) % a == 0 && (x - y) % a == 0
  {
    var j, k := x / a, y / a;
    assert x + y == (j + k) * a && x - y == (j - k) * a;
    MulMod(j + k, a);
    MulMod(j - k, a);
  }

  /** The end of an object placed after `oldPos`, behind its prefix. */
  function Advance(oldPos: nat, preAlign: nat, preSize: nat, align: nat, size: nat): nat
    requires preAlign > 0 && align > 0
  {
    AlignForward(AlignForward(oldPos, preAlign) + preSize, align) + size
  }

  /** The object lies after `oldPos` with its prefix, is aligned, and its prefix
      is aligned too when the prefix size is a multiple of its alignment. */
  lemma AdvanceOk(oldPos: nat, preAlign: nat, preSize: nat, align: nat, size: nat)
    requires IsPow2(preAlign) && IsPow2(align)
    ensures var addr := Advance(oldPos, preAlign, preSize, align, size) - size;
            && oldPos <= addr - preSize
            && addr % align == 0
            && (preSize % preAlign == 0 ==> (addr - preSize) % preAlign == 0)
  {
    var p := AlignForward(oldPos, preAlign);
    AlignForwardOk(oldPos, preAlign);
    Placed(oldPos, p, preAlign, preSize, align);
    var addr := AlignForward(p + preSize, align);
    assert Advance(oldPos, preAlign, preSize, align, size) == addr + size;
  }

  lemma Placed(oldPos: nat, p: nat, preAlign: nat, preSize: nat, align: nat)
    requires IsPow2(preAlign) && IsPow2(align) && oldPos <= p && p % preAlign == 0
    ensures var addr := AlignForward(p + preSize, align);
            && oldPos <= addr - preSize && addr % align == 0
            && (preSize % preAlign == 0 ==> (addr - preSize) % preAlign == 0)
  {
    AlignForwardOk(p + preSize, align);
    if preSize % preAlign == 0 {
      PrefixAligned(p, preAlign, preSize, align);
    }
  }

  lemma PrefixAligned(p: nat, preAlign: nat, preSize: nat, align: nat)
    requires IsPow2(preAlign) && IsPow2(align) && p % preAlign == 0 && preSize % preAlign == 0
    ensures (AlignForward(p + preSize, align) - preSize) % preAlign == 0
  {
    var addr := AlignForward(p + preSize, align);
    AlignForwardOk(p + preSize, align);
    SumMultiple(p, preSize, preAlign);
    if align >= preAlign {
      PowersDivide(preAlign, align);
      DividesThrough(addr, align, preAlign);
    } else {
      PowersDivide(align, preAlign);
      DividesThrough(p + preSize, preAlign, align);
    }
    SumMultiple(addr, preSize, preAlign);
  }

  // -------------------------------------------------------------------------- regions

  /** Memory handed out: the prefix from `start`, the object from `addr` to
      `end`, in chunk number `chunk`. */
  datatype Region = Region(chunk: nat, start: nat, addr: nat, end: nat)

  ghost predicate Disjoint(a: Region, b: Region) {
    a.chunk != b.chunk || a.end <= b.start || b.end <= a.start
  }

  ghost predicate AllDisjoint(rs: seq<Region>) {
    forall i, j :: 0 <= i < j < |rs| ==> Disjoint(rs[i], rs[j])
  }

  /** The pool's own header is in chunk 0, a link in every other chunk. */
  function Header(chunk: nat): nat {
    if chunk == 0 then POOL_HEADER else CHUNK_HEADER
  }

  ghost predicate Inside(chunks: seq<nat>, r: Region) {
    && r.chunk < |chunks|
    && Header(r.chunk) <= r.start <= r.addr <= r.end <= chunks[r.chunk]
  }

  lemma DisjointMore(rs: seq<Region>, r: Region)
    requires AllDisjoint(rs) && forall i :: 0 <= i < |rs| ==> Disjoint(rs[i], r)
    ensures AllDisjoint(rs + [r])
  {}

  // ------------------------------------------------------------------------ addresses

  /** What the address of a chunk is known to be a multiple of: `first` for the
      buffer the pool was made in, and what `malloc` gives for all others. */
  function ChunkAlign(chunk: nat, first: nat): nat {
    if chunk == 0 then first else MAX_ALIGN
  }

  /** Wherever a chunk of alignment `g` is, its byte `addr` is at a multiple of
      `align`. */
  ghost predicate AlwaysAligned(g: nat, addr: nat, align: nat)
    requires g > 0 && align > 0
  {
    forall base: nat :: base % g == 0 ==> Lands(base, addr, align)
  }

  predicate Lands(base: nat, addr: nat, align: nat)
    requires align > 0
  {
    (base + addr) % align == 0
  }

  lemma AlignedUpTo(g: nat, base: nat, addr: nat, align: nat)
    requires IsPow2(g) && IsPow2(align) && align <= g && addr % align == 0 && base % g == 0
    ensures (base + addr) % align == 0
  {
    PowersDivide(align, g);
    DividesThrough(base, g, align);
    SumMultiple(base, addr, align);
  }

  lemma NotBeyond(g: nat, addr: nat, align: nat)
    requires 0 < g < align && addr % align == 0
    ensures (g + addr) % align != 0
  {
    if (g + addr) % align == 0 {
      SumMultiple(g + addr, addr, align);
    }
  }

  /** An aligned offset makes an aligned address up to the alignment of the
      chunk, and never beyond it. */
  lemma AlignedExactly(g: nat, addr: nat, align: nat)
    requires IsPow2(g) && IsPow2(align) && addr % align == 0
    ensures AlwaysAligned(g, addr, align) <==> align <= g
  {
    if align <= g {
      forall base: nat | base % g == 0 ensures Lands(base, addr, align) {
        AlignedUpTo(g, base, addr, align);
      }
    } else {
      MulMod(1, g);
      NotBeyond(g, addr, align);
      assert g % g == 0 && !Lands(g, addr, align);
    }
  }

  /** The address is aligned as asked when the chunk is, and otherwise not for
      every place the chunk may be at. */
  ghost predicate AlignedIf(base: nat, g: nat, addr: nat, align: nat)
    requires g > 0 && align > 0
  {
    && (AlwaysAligned(g, addr, align) <==> align <= g)
    && (align <= g ==> (base + addr) % align == 0)
  }

  lemma AlignedBase(base: nat, g: nat, addr: nat, align: nat)
    requires IsPow2(g) && IsPow2(align) && addr % align == 0 && base % g == 0
    ensures AlignedIf(base, g, addr, align)
  {
    AlignedExactly(g, addr, align);
    if align <= g {
      AlignedUpTo(g, base, addr, align);
    }
  }

  /** So 32-byte alignment is not what is asked for when the chunk is at an odd
      multiple of 16. */
  lemma Misaligned()
    ensures 16 % MAX_ALIGN == 0 && 32 % 32 == 0 && (16 + 32) % 32 != 0
    ensures !AlwaysAligned(MAX_ALIGN, 32, 32)
  {
    assert 16 % MAX_ALIGN == 0 && !Lands(16, 32, 32);
  }

  // ---------------------------------------------------------------------- chunk sizes

  /** The largest request whose chunk size fits 16 bits. */
  const MAX_EXPAND := 53256

  lemma PadValues()
    ensures Pad(22) == 3329 && Pad(23) == 4410
  {
    assert Pad(3) == 16 && Pad(4) == 21 && Pad(5) == 28 && Pad(6) == 37;
    assert Pad(7) == 49 && Pad(8) == 65 && Pad(9) == 86 && Pad(10) == 114;
    assert Pad(11) == 151 && Pad(12) == 200 && Pad(13) == 265 && Pad(14) == 351;
    assert Pad(15) == 465 && Pad(16) == 616 && Pad(17) == 816 && Pad(18) == 1081;
    assert Pad(19) == 1432 && Pad(20) == 1897 && Pad(21) == 2513;
  }

  lemma PadAround(k: nat)
    ensures k <= 22 ==> Pad(k) <= 3329
    ensures k >= 22 ==> Pad(k) >= 3329
    ensures k >= 23 ==> Pad(k) >= 4410
  {
    PadValues();
    if k < 22 {
      PadIncreasing(k, 22);
    } else if k > 23 {
      PadIncreasing(23, k);
    }
  }

  lemma BlocksFit(min: nat, blocks: nat)
    requires IsBlocksFor(min, blocks)
    ensures blocks <= 4096 <==> min <= 3329
  {
    if min > 5 {
      var k: nat :| blocks == Pad(k) && min <= blocks && (k == 0 || Pad(k - 1) < min);
      var below := if k == 0 then 0 else Pad(k - 1);
      PadAround(k);
      if k >= 23 {
        PadAround(k - 1);
      }
      FitNumbers(min, blocks, below, k);
    }
  }

  lemma FitNumbers(min: nat, blocks: nat, below: nat, k: nat)
    requires min <= blocks && (k <= 22 ==> blocks <= 3329)
    requires k >= 23 ==> blocks >= 4410 && 3329 <= below < min
    ensures blocks <= 4096 <==> min <= 3329
  {}

  lemma ChunkFits(req: nat, blocks: nat)
    requires IsBlocksFor(MinBlocks(req), blocks)
    ensures BlockBytes(blocks) < 0x1_0000 <==> req <= MAX_EXPAND
  {
    BlocksFit(MinBlocks(req), blocks);
  }

  /** Memory from `malloc`, or on the stack as an array of the most aligned type,
      is somewhere, aligned for every type. */
  lemma NewAddress() returns (base: nat)
    ensures base % MAX_ALIGN == 0
  {
    base :| base % MAX_ALIGN == 0 && base >= 0;
  }

  class GuPool {
    /** The size of every chunk. */
    var chunks: seq<nat>
    var curr: nat
    var leftEdge: nat
    var rightEdge: nat
    var currSize: nat
    /** Everything handed out so far. */
    ghost var regions: seq<Region>
    /** The address of every chunk. */
    ghost var bases: seq<nat>
    /** A power of two that the address of the first chunk is a multiple of. */
    ghost const first: nat

    ghost predicate Valid()
      reads this
    {
      && curr < |chunks| && currSize <= chunks[curr]
      // all edges fit their 16-bit fields
      && Header(curr) <= leftEdge <= rightEdge <= currSize < 0x1_0000
      && (forall i :: 0 <= i < |regions| ==> Inside(chunks, regions[i]))
      && AllDisjoint(regions)
      // the middle of the current chunk is free
      && (forall i :: 0 <= i < |regions| && regions[i].chunk == curr ==>
            regions[i].end <= leftEdge || rightEdge <= regions[i].start)
      && IsPow2(first) && |bases| == |chunks|
      && (forall c :: 0 <= c < |bases| ==> bases[c] % ChunkAlign(c, first) == 0)
    }

    /** A pool in a given buffer.  The size is cut to 16 bits; what is left must
        hold the header. */
    constructor (size: nat, ghost base: nat, ghost first: nat)
      requires size >= POOL_HEADER && POOL_ALIGN <= first && IsPow2(first) && base % first == 0
      ensures Valid() <==> size % 0x1_0000 >= POOL_HEADER
      ensures regions == [] && chunks == [size] && bases == [base] && this.first == first
    {
      this.first := first;
      chunks, curr, currSize := [size], 0, size % 0x1_0000;
      leftEdge, rightEdge := POOL_HEADER, size % 0x1_0000;
      regions, bases := [], [base];
    }

    /** A new current chunk; `ok` is false when its size does not fit 16 bits,
        which the source asserts against. */
    method Expand(req: nat) returns (ok: bool)
      requires Valid() && CHUNK_HEADER <= req && SizeFits(req)
      modifies this
      ensures Valid() && regions == old(regions) && old(bases) <= bases
      ensures ok <==> req <= MAX_EXPAND
      ensures ok ==> chunks == old(chunks) + [currSize] && curr == |old(chunks)|
      ensures ok ==> leftEdge == CHUNK_HEADER && rightEdge == currSize && req <= currSize
    {
      var least := if currSize + 1 < CHUNK_MAX_SIZE then currSize + 1 else CHUNK_MAX_SIZE;
      var realReq := if req < least then least else req;
      var size;
      ghost var blocks;
      size, blocks := BufSize(realReq);
      ChunkFits(realReq, blocks);
      if size >= 0x1_0000 {
        return false;
      }
      ghost var base := NewAddress();
      curr := |chunks|;
      chunks, bases := chunks + [size], bases + [base];
      leftEdge := CHUNK_HEADER;
      rightEdge, currSize := size, size;
      ok := true;
    }

    method MallocAligned(preAlign: nat, preSize: nat, align: nat, size: nat) returns (r: Region)
      requires Valid() && IsPow2(preAlign) && IsPow2(align)
      requires Advance(CHUNK_HEADER, preAlign, preSize, align, size) <= MAX_SHARED_ALLOC
      modifies this
      ensures Valid() && regions == old(regions) + [r] && old(bases) <= bases
      ensures r.end - r.addr == size && r.addr - r.start == preSize
      ensures r.addr % align == 0
      ensures preSize % preAlign == 0 ==> r.start % preAlign == 0
    {
      AdvanceOk(leftEdge, preAlign, preSize, align, size);
      var pos := Advance(leftEdge, preAlign, preSize, align, size);
      if pos > rightEdge {
        pos := Advance(CHUNK_HEADER, preAlign, preSize, align, size);
        AdvanceOk(CHUNK_HEADER, preAlign, preSize, align, size);
        var ok := Expand(pos);
        assert ok && pos <= rightEdge;
      }
      r := Region(curr, pos - size - preSize, pos - size, pos);
      Record(r, pos, rightEdge);
    }

    /** Fails only when a new chunk is needed and would be too large. */
    method MallocUnaligned(preSize: nat, size: nat) returns (ok: bool, r: Region)
      requires Valid() && SizeFits(CHUNK_HEADER + preSize + size)
      modifies this
      ensures Valid() && old(bases) <= bases
      ensures ok <==> preSize + size <= old(rightEdge - leftEdge) || CHUNK_HEADER + preSize + size <= MAX_EXPAND
      ensures ok ==> regions == old(regions) + [r] && r.end - r.addr == size && r.addr - r.start == preSize
      ensures !ok ==> regions == old(regions)
    {
      var total := preSize + size;
      ok, r := true, Region(0, 0, 0, 0);
      if total > rightEdge - leftEdge {
        ok := Expand(CHUNK_HEADER + total);
        if !ok {
          return;
        }
        assert total <= rightEdge - leftEdge;
      }
      r := Region(curr, rightEdge - total, rightEdge - size, rightEdge);
      Record(r, leftEdge, rightEdge - total);
    }

    /** Moves the edges past a region cut off the free middle. */
    method Record(r: Region, left: nat, right: nat)
      requires Valid() && r.chunk == curr && r.start <= r.addr <= r.end
      requires leftEdge <= left <= right <= rightEdge
      requires leftEdge <= r.start && r.end <= rightEdge && (r.end <= left || right <= r.start)
      modifies this`leftEdge, this`rightEdge, this`regions
      ensures Valid() && regions == old(regions) + [r] && leftEdge == left && rightEdge == right
    {
      DisjointMore(regions, r);
      leftEdge, rightEdge := left, right;
      regions := regions + [r];
    }

    method MallocOwnChunk(preSize: nat, size: nat, fullSize: nat) returns (r: Region)
      requires Valid() && CHUNK_HEADER + preSize + size <= fullSize
      modifies this`chunks, this`regions, this`bases
      ensures Valid() && regions == old(regions) + [r] && old(bases) <= bases
      ensures r == Region(|old(chunks)|, fullSize - size - preSize, fullSize - size, fullSize)
    {
      r := Region(|chunks|, fullSize - size - preSize, fullSize - size, fullSize);
      ghost var base := NewAddress();
      chunks, bases := chunks + [fullSize], bases + [base];
      DisjointMore(regions, r);
      regions := regions + [r];
    }

    /** One of the three ways, by size and alignment. */
    method MallocAny(preAlign: nat, preSize: nat, align: nat, size: nat) returns (r: Region)
      requires Valid() && IsPow2(preAlign) && IsPow2(align)
      modifies this
      ensures Valid() && regions == old(regions) + [r] && old(bases) <= bases
      ensures r.end - r.addr == size && r.addr - r.start == preSize
      ensures r.addr % align == 0
      ensures preSize % preAlign == 0 ==> r.start % preAlign == 0
    {
      var fullSize := Advance(CHUNK_HEADER, preAlign, preSize, align, size);
      AdvanceOk(CHUNK_HEADER, preAlign, preSize, align, size);
      if fullSize > MAX_SHARED_ALLOC {
        r := MallocOwnChunk(preSize, size, fullSize);
      } else if preAlign == 1 && align == 1 {
        var ok;
        ok, r := MallocUnaligned(preSize, size);
        assert ok;
      } else {
        r := MallocAligned(preAlign, preSize, align, size);
      }
    }

    /** The general entry point; an alignment of 0 asks for the default.  The
        pointers are aligned as asked up to the alignment of the chunk, and
        beyond it only by chance. */
    method MallocPrefixed(preAlign0: nat, preSize: nat, align0: nat, size: nat) returns (r: Region)
      requires Valid() && (preAlign0 == 0 || IsPow2(preAlign0)) && (align0 == 0 || IsPow2(align0))
      modifies this
      ensures Valid() && regions == old(regions) + [r] && old(bases) <= bases
      ensures r.end - r.addr == size && r.addr - r.start == preSize
      ensures r.addr % Align(align0) == 0 && r.chunk < |bases|
      ensures AlignedIf(bases[r.chunk], ChunkAlign(r.chunk, first), r.addr, Align(align0))
      ensures preSize % Align(preAlign0) == 0 ==>
                AlignedIf(bases[r.chunk], ChunkAlign(r.chunk, first), r.start, Align(preAlign0))
    {
      var preAlign, align := Align(preAlign0), Align(align0);
      assert IsPow2(1) && IsPow2(2) && IsPow2(4) && IsPow2(8) && IsPow2(16);
      r := MallocAny(preAlign, preSize, align, size);
      assert Inside(chunks, regions[|regions| - 1]);
      AlignedBase(bases[r.chunk], ChunkAlign(r.chunk, first), r.addr, align);
      if preSize % preAlign == 0 {
        AlignedBase(bases[r.chunk], ChunkAlign(r.chunk, first), r.start, preAlign);
      }
    }

    /** An object on its own; without an alignment, the one its size calls for. */
    method Malloc(size: nat, align0: nat) returns (r: Region)
      requires Valid() && (align0 == 0 || IsPow2(align0))
      modifies this
      ensures Valid() && regions == old(regions) + [r] && old(bases) <= bases
      ensures r.end - r.addr == size && r.chunk < |bases|
      ensures AlignedIf(bases[r.chunk], ChunkAlign(r.chunk, first), r.addr, Asked(size, align0))
    {
      LowestBit(size);
      assert IsPow2(1) && IsPow2(2) && IsPow2(4) && IsPow2(8) && IsPow2(16);
      var align := if align0 != 0 then align0 else if LowestSetBit(size) < MAX_ALIGN then LowestSetBit(size) else MAX_ALIGN;
      r := MallocPrefixed(1, 0, align, size);
    }
  }

  function Align(a: nat): nat {
    if a == 0 then MAX_ALIGN else a
  }

  /** The greatest power of two that divides a number, and 0 for 0. */
  function LowestSetBit(n: nat): nat {
    if n == 0 then 0 else if n % 2 == 1 then 1 else 2 * LowestSetBit(n / 2)
  }

  lemma {:induction false} LowestBit(n: nat)
    ensures n > 0 ==> IsPow2(LowestSetBit(n)) && n % LowestSetBit(n) == 0
    decreases n
  {
    if n > 0 && n % 2 == 0 {
      var a, m := LowestSetBit(n / 2), n / 2;
      LowestBit(m);
      assert 2 * a / 2 == a && 2 * a % 2 == 0;
      var k := m / a;
      assert m == a * k;
      assert n == k * (2 * a);
      MulMod(k, 2 * a);
    }
  }

  /** The alignment an object gets: as asked, else what its size is a multiple of,
      up to the largest there is. */
  function Asked(size: nat, align0: nat): (a: nat)
    ensures a > 0
  {
    if align0 != 0 then align0
    else if 0 < LowestSetBit(size) < MAX_ALIGN then LowestSetBit(size) else MAX_ALIGN
  }

  // ---------------------------------------------------------------- pools of the two kinds

  /** Bytes in a new pool, and in the buffer of a local one. */
  const POOL_INITIAL_SIZE := 192
  const LOCAL_POOL_SIZE := 128

  method NewPool() returns (pool: GuPool)
    ensures fresh(pool) && pool.Valid() && pool.regions == [] && pool.first == MAX_ALIGN
  {
    var size, blocks := BufSize(POOL_HEADER + POOL_INITIAL_SIZE);
    ChunkFits(POOL_HEADER + POOL_INITIAL_SIZE, blocks);
    ghost var base := NewAddress();
    assert IsPow2(2) && IsPow2(4) && IsPow2(8) && IsPow2(16);
    pool := new GuPool(size, base, MAX_ALIGN);
  }

  method LocalPool() returns (pool: GuPool)
    ensures fresh(pool) && pool.Valid() && pool.regions == [] && pool.first == MAX_ALIGN
  {
    ghost var base := NewAddress();
    assert IsPow2(2) && IsPow2(4) && IsPow2(8) && IsPow2(16);
    pool := new GuPool(LOCAL_POOL_SIZE, base, MAX_ALIGN);
  }

  /** A request for an object. */
  datatype Ask = Ask(size: nat, align: nat)

  /** What a request has been given: an object of its size, aligned as it asked, if
      that is at most what any type needs. */
  ghost predicate Served(bases: seq<nat>, ask: Ask, r: Region) {
    && r.chunk < |bases| && r.end - r.addr == ask.size
    && (Asked(ask.size, ask.align) <= MAX_ALIGN ==> (bases[r.chunk] + r.addr) % Asked(ask.size, ask.align) == 0)
  }

  /** Whatever is asked of a pool, of either kind: the objects do not overlap, and
      each is as asked for. */
  method MallocAll(local: bool, asks: seq<Ask>) returns (pool: GuPool, rs: seq<Region>)
    requires forall i :: 0 <= i < |asks| ==> asks[i].align == 0 || IsPow2(asks[i].align)
    ensures pool.Valid() && pool.regions == rs && AllDisjoint(rs) && |rs| == |asks|
    ensures forall i :: 0 <= i < |rs| ==> Inside(pool.chunks, rs[i]) && Served(pool.bases, asks[i], rs[i])
  {
    if local {
      pool := LocalPool();
    } else {
      pool := NewPool();
    }
    rs := [];
    for i := 0 to |asks|
      invariant pool.Valid() && fresh(pool) && pool.first == MAX_ALIGN && pool.regions == rs && |rs| == i
      invariant forall k :: 0 <= k < i ==> Served(pool.bases, asks[k], rs[k])
    {
      var r := pool.Malloc(asks[i].size, asks[i].align);
      rs := rs + [r];
    }
  }
}
