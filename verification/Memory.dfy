/**
 Buffer sizes by Padovan numbers (`gu_mem_padovan`, `gu_mem_buf_realloc`) and
 the growing buffer built on them (`gu/seq.c`).
 */
module Memory {

  const SIZE_LIMIT: nat := 0x1_0000_0000_0000_0000
  const UNIT := 16
  const OVERHEAD := 8

  // --------------------------------------------------------------------- Padovan

  /** The growth sequence 7, 9, 12, 16, 21, 28, 37, ... */
  function Pad(k: nat): nat {
    if k == 0 then 7 else if k == 1 then 9 else if k == 2 then 12 else Pad(k - 2) + Pad(k - 3)
  }

  /** `y` is between 5/4 and 4/3 of `x`. */
  predicate Ratio(x: int, y: int) {
    5 * x <= 4 * y && 3 * y <= 4 * x
  }

  lemma {:induction false} PadRatio(k: nat)
    ensures Ratio(Pad(k), Pad(k + 1)) && Pad(k) >= 7
  {
    if k >= 3 {
      PadRatio(k - 1);
      PadRatio(k - 2);
      PadRatio(k - 3);
    } else {
      assert Pad(3) == 16;
    }
  }

  lemma {:induction false} PadIncreasing(j: nat, k: nat)
    requires j < k
    ensures Pad(j) < Pad(k)
    decreases k
  {
    PadRatio(k - 1);
    if j < k - 1 {
      PadIncreasing(j, k - 1);
    }
  }

  /** The least number of blocks offered for `min`: up to five exactly, then
      the least number of the sequence. */
  ghost predicate IsBlocksFor(min: nat, r: nat) {
    if min <= 5 then r == min
    else exists k: nat :: r == Pad(k) && min <= r && (k == 0 || Pad(k - 1) < min)
  }

  /** On 64-bit words, wrap-around included: the answer is never too small.
      Unless the sequence would leave the word, it is the least suitable count
      and wastes at most a third. */
  method Padovan(min: nat) returns (r: nat)
    requires min < SIZE_LIMIT
    ensures min <= r < SIZE_LIMIT
    ensures 4 * min < 3 * SIZE_LIMIT ==> IsBlocksFor(min, r) && (min > 5 ==> 3 * r <= 4 * min)
  {
    if min <= 5 {
      return min;
    }
    var a, b, c := 7, 9, 12;
    // 0: no wrap-around yet; 1: c has wrapped; 2: b has wrapped
    ghost var k, wrapped := 0, 0;
    while min > a
      invariant a == Pad(k) < SIZE_LIMIT && (k == 0 || Pad(k - 1) < min) && 3 * a <= 4 * min
      invariant 0 <= wrapped <= 2 && b < SIZE_LIMIT && c < SIZE_LIMIT
      invariant wrapped == 0 ==> b == Pad(k + 1) && c == Pad(k + 2)
      invariant wrapped == 1 ==> b == Pad(k + 1) && c < a && Pad(k + 2) >= SIZE_LIMIT
      invariant wrapped == 2 ==> b < a && Pad(k + 1) >= SIZE_LIMIT
      decreases min - a
    {
      PadRatio(k);
      PadRatio(k + 1);
      if b < a {
        return SIZE_LIMIT - 1;
      }
      var tmp := (a + b) % SIZE_LIMIT;
      WrapSmall(a, b);
      wrapped := if wrapped == 0 && a + b < SIZE_LIMIT then 0 else wrapped + 1;
      a, b, c := b, c, tmp;
      k := k + 1;
    }
    r := a;
  }

  lemma WrapSmall(a: nat, b: nat)
    requires a < SIZE_LIMIT && b < SIZE_LIMIT
    ensures a + b < SIZE_LIMIT ==> (a + b) % SIZE_LIMIT == a + b
    ensures a + b >= SIZE_LIMIT ==> (a + b) % SIZE_LIMIT < b
  {}

  // -------------------------------------------------------------------- buffer sizes

  function MinBlocks(minSize: nat): nat {
    (minSize + OVERHEAD - 1) / UNIT + 1
  }

  function BlockBytes(blocks: nat): int {
    blocks * UNIT - OVERHEAD
  }

  /** Enough bytes, and one more byte would need another block. */
  lemma BlocksCover(minSize: nat, blocks: nat)
    requires blocks >= MinBlocks(minSize)
    ensures BlockBytes(blocks) >= minSize
  {}

  lemma MoreBlocks(minSize: nat, blocks: nat)
    requires minSize > BlockBytes(blocks)
    ensures MinBlocks(minSize) > blocks
  {}

  /** Up to three quarters of the address space no size computation wraps. */
  predicate SizeFits(minSize: nat) {
    4 * minSize + 128 < 3 * SIZE_LIMIT
  }

  /** The size of the buffer returned for a request (`gu_mem_buf_alloc`). */
  method BufSize(minSize: nat) returns (size: nat, ghost blocks: nat)
    requires SizeFits(minSize)
    ensures minSize <= size < SIZE_LIMIT && size == BlockBytes(blocks)
    ensures IsBlocksFor(MinBlocks(minSize), blocks) && blocks >= MinBlocks(minSize)
    ensures MinBlocks(minSize) > 5 ==> 3 * blocks <= 4 * MinBlocks(minSize)
  {
    var b := Padovan(MinBlocks(minSize));
    blocks := b;
    BlocksCover(minSize, b);
    size := b * UNIT - OVERHEAD;
  }

  // ---------------------------------------------------------------- the growing buffer

  function Sum(h: seq<nat>): nat {
    if h == [] then 0 else Sum(h[..|h| - 1]) + h[|h| - 1]
  }

  ghost predicate IsBlockCount(n: nat) {
    1 <= n <= 5 || exists k: nat :: n == Pad(k)
  }

  /** The block counts one buffer has had so far. */
  ghost predicate Growing(h: seq<nat>) {
    && (forall i :: 0 <= i < |h| ==> IsBlockCount(h[i]))
    && (forall i :: 0 < i < |h| ==> h[i - 1] < h[i])
  }

  /** The sum of all block counts up to `n`. */
  ghost function AllUpTo(n: nat): nat {
    if n == 0 then 0 else AllUpTo(n - 1) + if IsBlockCount(n) then n else 0
  }

  lemma {:induction false} AllUpToMonotone(m: nat, n: nat)
    requires m <= n
    ensures AllUpTo(m) <= AllUpTo(n)
    decreases n
  {
    if m < n {
      AllUpToMonotone(m, n - 1);
    }
  }

  /** Between two neighbours of the sequence there is no block count. */
  lemma {:induction false} GapEmpty(k: nat, n: nat)
    requires Pad(k) <= n < Pad(k + 1)
    ensures AllUpTo(n) == AllUpTo(Pad(k))
    decreases n
  {
    PadRatio(k);
    if n > Pad(k) {
      GapEmpty(k, n - 1);
      if IsBlockCount(n) {
        var j: nat :| n == Pad(j);
        if j < k {
          PadIncreasing(j, k);
        } else if j > k + 1 {
          PadIncreasing(k + 1, j);
        }
        assert false;
      }
    }
  }

  lemma SixIsNoBlockCount()
    ensures !IsBlockCount(6)
  {
    if IsBlockCount(6) {
      var k: nat :| 6 == Pad(k);
      PadRatio(k);
      assert false;
    }
  }

  /** All block counts up to the `k`-th of the sequence together. */
  lemma {:induction false} PadSum(k: nat)
    ensures AllUpTo(Pad(k)) <= 5 * Pad(k)
  {
    if k == 0 {
      SixIsNoBlockCount();
      assert IsBlockCount(7) by { assert 7 == Pad(0); }
      assert AllUpTo(2) == 3;
      assert AllUpTo(4) == 10;
      assert AllUpTo(6) == 15;
      assert AllUpTo(7) == 22;
    } else {
      PadSum(k - 1);
      PadRatio(k - 1);
      GapEmpty(k - 1, Pad(k) - 1);
    }
  }

  lemma {:induction false} SumWithin(h: seq<nat>)
    requires Growing(h) && h != []
    ensures Sum(h) <= AllUpTo(h[|h| - 1])
    decreases |h|
  {
    var n := h[|h| - 1];
    assert IsBlockCount(n);
    assert n >= 1 by {
      if n == 0 {
        var k: nat :| n == Pad(k);
        PadRatio(k);
      }
    }
    if |h| > 1 {
      var g := h[..|h| - 1];
      SumWithin(g);
      AllUpToMonotone(g[|g| - 1], n - 1);
    } else {
      assert Sum(h[..0]) == 0;
    }
  }

  /** All the blocks one buffer ever had are at most five times the last. */
  lemma GrowthBounded(h: seq<nat>)
    requires Growing(h) && h != []
    ensures Sum(h) <= 5 * h[|h| - 1]
  {
    var n := h[|h| - 1];
    SumWithin(h);
    assert IsBlockCount(n);
    if n <= 5 {
      assert AllUpTo(1) <= 1 && AllUpTo(2) <= 3;
      assert AllUpTo(3) <= 6 && AllUpTo(4) <= 10;
      assert AllUpTo(5) <= 15;
    } else {
      var k: nat :| n == Pad(k);
      PadSum(k);
    }
  }

  class GuBuf<T(0)> {
    var data: array<T>
    var len: nat
    var availLen: nat
    const elemSize: nat
    /** The block counts of all (re)allocations. */
    ghost var history: seq<nat>

    ghost predicate Valid()
      reads this, data
    {
      && elemSize > 0 && len <= availLen <= data.Length
      && Growing(history)
      && (history == [] ==> availLen == 0)
      && (history != [] ==> availLen == BlockBytes(history[|history| - 1]) / elemSize)
    }

    ghost function Contents(): seq<T>
      requires Valid()
      reads this, data
    {
      data[..len]
    }

    constructor (elemSize: nat)
      requires elemSize > 0
      ensures Valid() && Contents() == [] && history == [] && fresh(data) && this.elemSize == elemSize
    {
      this.elemSize := elemSize;
      data := new T[0];
      len, availLen, history := 0, 0, [];
    }

    method Require(reqLen: nat)
      requires Valid() && (reqLen > availLen ==> SizeFits(elemSize * reqLen))
      modifies this`data, this`availLen, this`history
      ensures Valid() && Contents() == old(Contents()) && reqLen <= availLen
      ensures data == old(data) || fresh(data)
      // at most one reallocation, and only when needed
      ensures reqLen <= old(availLen) ==> history == old(history) && data == old(data)
      ensures reqLen > old(availLen) ==> |history| == |old(history)| + 1 && old(history) <= history
    {
      if reqLen <= availLen {
        return;
      }
      var size;
      ghost var blocks;
      size, blocks := BufSize(elemSize * reqLen);
      ghost var old_ := if history == [] then 0 else history[|history| - 1];
      if history != [] {
        Outgrown(old_, elemSize, reqLen);
      }
      BlocksForIsCount(MinBlocks(elemSize * reqLen), blocks);
      DivCovers(size, elemSize, reqLen);
      var next := new T[size / elemSize];
      forall i | 0 <= i < len {
        next[i] := data[i];
      }
      assert next[..len] == data[..len];
      data := next;
      availLen := size / elemSize;
      history := history + [blocks];
    }

    method PushN(xs: seq<T>)
      requires Valid() && (len + |xs| > availLen ==> SizeFits(elemSize * (len + |xs|)))
      modifies this, data
      ensures Valid() && Contents() == old(Contents()) + xs
      ensures old(history) <= history && |history| <= |old(history)| + 1
      ensures data == old(data) || fresh(data)
    {
      Require(len + |xs|);
      ghost var before := data[..len];
      forall i | 0 <= i < |xs| {
        data[len + i] := xs[i];
      }
      assert data[..len] == before;
      len := len + |xs|;
      assert data[..len] == before + xs;
    }

    method PopN(n: nat) returns (xs: seq<T>)
      requires Valid() && n <= len
      modifies this`len
      ensures Valid() && old(Contents()) == Contents() + xs && |xs| == n
    {
      xs := data[len - n..len];
      assert data[..len] == data[..len - n] + xs;
      len := len - n;
    }
  }

  lemma DivCovers(size: nat, e: nat, n: nat)
    requires e > 0 && e * n <= size
    ensures n <= size / e
  {
    var q := size / e;
    assert size < e * q + e;
    assert e * n < e * (q + 1);
  }

  /** A request beyond the present capacity needs more blocks. */
  lemma Outgrown(blocks: nat, e: nat, n: nat)
    requires e > 0 && BlockBytes(blocks) >= 0 && n > BlockBytes(blocks) / e
    ensures MinBlocks(e * n) > blocks
  {
    var size := BlockBytes(blocks);
    assert e * n >= e * (size / e + 1);
    assert size < e * (size / e) + e;
    MoreBlocks(e * n, blocks);
  }

  lemma BlocksForIsCount(min: nat, r: nat)
    requires IsBlocksFor(min, r) && min >= 1
    ensures IsBlockCount(r)
  {}
}
