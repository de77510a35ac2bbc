/**
 Packed strings (`gu/string.c`): up to seven bytes live in the word itself, odd
 because of its lowest bit; longer ones are in memory at an even address, behind
 a byte with their length.
 */
module Strings {
  import opened Arith
  import opened Wrappers

  const WORD_BYTES := 8

  type Memory = nat -> Byte

  // -------------------------------------------------------------------------- packing

  /** The bytes shifted in one after the other. */
  function Shifted(bs: seq<Byte>): nat {
    if bs == [] then 0 else Shifted(bs[..|bs| - 1]) * 256 + bs[|bs| - 1]
  }

  /** The last byte of the word holds twice the length, plus one. */
  function Packed(bs: seq<Byte>): nat {
    Shifted(bs) * 256 + |bs| * 2 + 1
  }

  /** The lowest `n` bytes of a number. */
  function Bytes(w: nat, n: nat): (bs: seq<Byte>)
    ensures |bs| == n
  {
    if n == 0 then [] else Bytes(w / 256, n - 1) + [w % 256]
  }

  function Unpacked(w: nat): seq<Byte> {
    Bytes(w / 256, w % 256 / 2)
  }

  lemma {:induction false} BytesShifted(bs: seq<Byte>)
    ensures Bytes(Shifted(bs), |bs|) == bs
    decreases |bs|
  {
    if bs != [] {
      var k := |bs| - 1;
      BytesShifted(bs[..k]);
      assert Shifted(bs) / 256 == Shifted(bs[..k]) && Shifted(bs) % 256 == bs[k];
    }
  }

  /** Packing loses nothing. */
  lemma UnpackPacked(bs: seq<Byte>)
    requires |bs| < WORD_BYTES
    ensures Unpacked(Packed(bs)) == bs && Packed(bs) % 2 == 1
  {
    LastByte(Shifted(bs), |bs|);
    BytesShifted(bs);
  }

  lemma LastByte(high: nat, n: nat)
    requires n < WORD_BYTES
    ensures var w := high * 256 + n * 2 + 1; w / 256 == high && w % 256 / 2 == n && w % 2 == 1
  {
    var low := n * 2 + 1;
    assert low / 2 == n && low < 256;
    assert (high * 256 + low) / 256 == high && (high * 256 + low) % 256 == low;
  }

  function Pow256(n: nat): nat {
    if n == 0 then 1 else 256 * Pow256(n - 1)
  }

  /** A packed string fits a 64-bit word. */
  lemma PackedFits(bs: seq<Byte>)
    requires |bs| < WORD_BYTES
    ensures Packed(bs) < 0x1_0000_0000_0000_0000
  {
    ShiftedBound(bs);
    assert Pow256(3) == 0x100_0000;
    assert Pow256(5) == 0x100_0000_0000;
    assert Pow256(7) == 0x100_0000_0000_0000;
    PowMonotone(|bs|, 7);
  }

  lemma {:induction false} ShiftedBound(bs: seq<Byte>)
    ensures Shifted(bs) < Pow256(|bs|)
    decreases |bs|
  {
    if bs != [] {
      ShiftedBound(bs[..|bs| - 1]);
    }
  }

  lemma {:induction false} PowMonotone(m: nat, n: nat)
    requires m <= n
    ensures Pow256(m) <= Pow256(n)
    decreases n
  {
    if m < n {
      PowMonotone(m, n - 1);
    }
  }

  // ------------------------------------------------------------------- long strings

  /** `n` bytes of memory from `at` on. */
  function Load(mem: Memory, at: nat, n: nat): (bs: seq<Byte>)
    ensures |bs| == n
  {
    seq(n, i requires 0 <= i < n => mem(at + i))
  }

  /** Memory with `bs` copied to `at`. */
  function Store(mem: Memory, at: nat, bs: seq<Byte>): Memory {
    (a: nat) => if at <= a < at + |bs| then bs[a - at] else mem(a)
  }

  /** A little-endian word in memory. */
  function LoadWord(mem: Memory, at: nat, n: nat): nat
    decreases n
  {
    if n == 0 then 0 else mem(at) + 256 * LoadWord(mem, at + 1, n - 1)
  }

  /** The length of the long string at `w`: the byte there, or, if that is zero,
      the word before it. */
  function LongLength(mem: Memory, w: nat): nat {
    if mem(w) != 0 then mem(w) else if w < WORD_BYTES then 0 else LoadWord(mem, w - WORD_BYTES, WORD_BYTES)
  }

  // -------------------------------------------------------------------------- strings

  /** The bytes of a string; `None` for the null string. */
  function Contents(mem: Memory, w: nat): Option<seq<Byte>> {
    if w == 0 then None
    else if w % 2 == 0 then Some(Load(mem, w + 1, LongLength(mem, w)))
    else Some(Unpacked(w))
  }

  /** The word stands for the bytes `bs`. */
  ghost predicate Represents(mem: Memory, w: nat, bs: seq<Byte>) {
    if |bs| < WORD_BYTES then w == Packed(bs)
    else |bs| < 256 && w % 2 == 0 && w > 0 && Load(mem, w, 1 + |bs|) == [|bs|] + bs
  }

  /** Packs short strings into the word; others are put at the given address.
      From 256 bytes on the pointer that is written through was never set. */
  method MakeString(mem: Memory, buf: seq<Byte>, addr: nat) returns (ok: bool, w: nat, mem': Memory)
    requires addr % 2 == 0 && addr > 0
    ensures ok <==> |buf| < 256
    ensures ok ==> Represents(mem', w, buf) && (w % 2 == 1 ==> w < 0x1_0000_0000_0000_0000)
    // nothing but the string's own bytes is written
    ensures |buf| < WORD_BYTES ==> mem' == mem
    ensures forall a: nat :: a < addr || addr + 1 + |buf| <= a ==> mem'(a) == mem(a)
  {
    ok, mem' := true, mem;
    if |buf| < WORD_BYTES {
      w := 0;
      for n := 0 to |buf|
        invariant w == Shifted(buf[..n])
      {
        assert buf[..n + 1][..n] == buf[..n];
        w := w * 256 + buf[n];
      }
      assert buf[..|buf|] == buf;
      PackedFits(buf);
      w := w * 256 + |buf| * 2 + 1;
    } else if |buf| < 256 {
      w := addr;
      mem' := Store(mem, addr, [|buf|]);
      mem' := Store(mem', addr + 1, buf);
      assert Load(mem', addr, 1 + |buf|) == [|buf|] + buf;
    } else {
      ok, w := false, 0;
    }
  }

  lemma RepresentsContents(mem: Memory, w: nat, bs: seq<Byte>)
    requires Represents(mem, w, bs)
    ensures Contents(mem, w) == Some(bs)
  {
    if |bs| < WORD_BYTES {
      UnpackPacked(bs);
    } else {
      var all := Load(mem, w, 1 + |bs|);
      assert all[0] == mem(w) == |bs|;
      assert Load(mem, w + 1, |bs|) == all[1..];
    }
  }

  /** Strings elsewhere stay what they are. */
  lemma RepresentsStays(mem: Memory, mem': Memory, addr: nat, n: nat, w: nat, bs: seq<Byte>)
    requires Represents(mem, w, bs)
    requires forall a: nat :: a < addr || addr + 1 + n <= a ==> mem'(a) == mem(a)
    requires w % 2 == 1 || w + 1 + |bs| <= addr || addr + 1 + n <= w
    ensures Represents(mem', w, bs)
  {
    if |bs| >= WORD_BYTES {
      assert Load(mem', w, 1 + |bs|) == Load(mem, w, 1 + |bs|);
    }
  }

  /** Reads the length and the bytes behind it, or unpacks the word from the last
      byte to the first. */
  method OpenString(mem: Memory, w: nat) returns (r: Option<seq<Byte>>)
    ensures r == Contents(mem, w)
  {
    if w == 0 {
      return None;
    }
    if w % 2 == 0 {
      var n: nat := mem(w);
      if n == 0 && w >= WORD_BYTES {
        n := LoadWord(mem, w - WORD_BYTES, WORD_BYTES);
      }
      return Some(Load(mem, w + 1, n));
    }
    var sz := w % 256 / 2;
    var p := new Byte[sz](_ => 0);
    var rest: nat := w / 256;
    var i: nat := sz;
    assert Bytes(rest, i) + p[i..] == Unpacked(w);
    while i > 0
      invariant 0 <= i <= sz && Bytes(rest, i) + p[i..] == Unpacked(w)
    {
      ghost var tail := p[i..];
      p[i - 1] := rest % 256;
      assert p[i - 1..] == [rest % 256] + tail;
      assert Bytes(rest / 256, i - 1) + [rest % 256] + tail == Bytes(rest / 256, i - 1) + p[i - 1..];
      rest := rest / 256;
      i := i - 1;
    }
    assert Bytes(rest, 0) + p[0..] == p[..];
    r := Some(p[..]);
  }

  /** Making a string of fewer than 256 bytes and opening it gives the bytes
      back. */
  method MakeAndOpen(mem: Memory, buf: seq<Byte>, addr: nat) returns (r: Option<seq<Byte>>)
    requires addr % 2 == 0 && addr > 0
    ensures r == if |buf| < 256 then Some(buf) else None
  {
    var ok, w, mem' := MakeString(mem, buf, addr);
    if !ok {
      return None;
    }
    RepresentsContents(mem', w, buf);
    r := OpenString(mem', w);
  }

  function StringEq(mem: Memory, w1: nat, w2: nat): bool {
    w1 == w2 || (w1 != 0 && w2 != 0 && Contents(mem, w1) == Contents(mem, w2))
  }

  // ---------------------------------------------------------------------------- hashes

  const HASH_LIMIT: nat := 0x1_0000_0000_0000_0000

  function HashByte(h: nat, b: Byte): nat {
    (h * 101 + b) % HASH_LIMIT
  }

  function HashedBytes(h: nat, bs: seq<Byte>): nat {
    if bs == [] then h else HashByte(HashedBytes(h, bs[..|bs| - 1]), bs[|bs| - 1])
  }

  function Power(b: nat, n: nat): nat {
    if n == 0 then 1 else b * Power(b, n - 1)
  }

  /** Bytes as the digits of a number, the first one counting most. */
  function Number(base: nat, bs: seq<Byte>): nat {
    if bs == [] then 0 else bs[0] * Power(base, |bs| - 1) + Number(base, bs[1..])
  }

  lemma {:induction false} NumberSnoc(base: nat, bs: seq<Byte>, b: Byte)
    ensures Number(base, bs + [b]) == base * Number(base, bs) + b
    decreases |bs|
  {
    if bs == [] {
      assert [b][1..] == [];
    } else {
      NumberSnoc(base, bs[1..], b);
      assert (bs + [b])[1..] == bs[1..] + [b];
      var p := Power(base, |bs| - 1);
      assert bs[0] * (base * p) == base * (bs[0] * p);
      assert base * (bs[0] * p + Number(base, bs[1..])) == base * (bs[0] * p) + base * Number(base, bs[1..]);
    }
  }

  lemma CarryOver(x: nat, y: nat, b: nat, m: nat)
    requires m > 0 && x % m == y % m
    ensures (x * 101 + b) % m == (y * 101 + b) % m
  {
    var q, r := x / m, y / m;
    assert x * 101 + b == m * (q * 101) + (x % m * 101 + b);
    assert y * 101 + b == m * (r * 101) + (y % m * 101 + b);
    SameRemainder(q * 101, x % m * 101 + b, m);
    SameRemainder(r * 101, x % m * 101 + b, m);
  }

  lemma SameRemainder(q: nat, z: nat, m: nat)
    requires m > 0
    ensures (m * q + z) % m == z % m
  {
    var k := z / m;
    assert m * q + z == m * (q + k) + z % m;
    UniqueDivMod(m * q + z, m, q + k, z % m);
  }

  lemma HashNext(x: nat, y: nat, b: Byte)
    requires x == y % HASH_LIMIT
    ensures HashByte(x, b) == (y * 101 + b) % HASH_LIMIT
  {
    CarryOver(x, y, b, HASH_LIMIT);
  }

  lemma OneDigit(h: nat, p: nat, n: nat, b: nat)
    ensures (h * p + n) * 101 + b == h * (101 * p) + (101 * n + b)
  {}

  /** The hash of some bytes is the number they are to the base 101, behind the
      seed, in 64 bits. */
  lemma {:induction false} HashedNumber(h: nat, bs: seq<Byte>)
    requires h < HASH_LIMIT
    ensures HashedBytes(h, bs) == (h * Power(101, |bs|) + Number(101, bs)) % HASH_LIMIT
    decreases |bs|
  {
    if bs != [] {
      var front, b := bs[..|bs| - 1], bs[|bs| - 1];
      HashedNumber(h, front);
      NumberSnoc(101, front, b);
      assert bs == front + [b];
      OneDigit(h, Power(101, |front|), Number(101, front), b);
      HashNext(HashedBytes(h, front), h * Power(101, |front|) + Number(101, front), b);
    }
  }

  method HashBytes(h: nat, bs: seq<Byte>) returns (r: nat)
    ensures r == HashedBytes(h, bs)
  {
    r := h;
    for n := 0 to |bs|
      invariant r == HashedBytes(h, bs[..n])
    {
      assert bs[..n + 1][..n] == bs[..n];
      r := HashByte(r, bs[n]);
    }
    assert bs[..|bs|] == bs;
  }

  function StringHash(mem: Memory, w: nat): nat {
    if w % 2 == 1 || w == 0 then w else HashedBytes(0, Contents(mem, w).value)
  }

  /** Strings are equal exactly when their bytes are, and then they hash alike. */
  lemma StringEqualBytes(mem: Memory, w1: nat, w2: nat, bs1: seq<Byte>, bs2: seq<Byte>)
    requires Represents(mem, w1, bs1) && Represents(mem, w2, bs2)
    ensures StringEq(mem, w1, w2) <==> bs1 == bs2
    ensures StringEq(mem, w1, w2) ==> StringHash(mem, w1) == StringHash(mem, w2)
  {
    RepresentsContents(mem, w1, bs1);
    RepresentsContents(mem, w2, bs2);
  }

  /** Null, or packed as it should be, or long enough not to be packed. */
  predicate StringOk(mem: Memory, w: nat) {
    || w == 0
    || (w % 2 == 1 && |Unpacked(w)| < WORD_BYTES && w == Packed(Unpacked(w)))
    || (w % 2 == 0 && mem(w) >= WORD_BYTES)
  }

  /** These are exactly the words that stand for some bytes. */
  lemma StringOkRepresents(mem: Memory, w: nat)
    requires w != 0
    ensures StringOk(mem, w) <==> exists bs :: Represents(mem, w, bs)
  {
    if StringOk(mem, w) {
      var bs := Contents(mem, w).value;
      if w % 2 == 0 {
        assert Load(mem, w, 1 + |bs|) == [|bs|] + bs;
      }
      assert Represents(mem, w, bs);
    }
    if bs :| Represents(mem, w, bs) {
      RepresentsContents(mem, w, bs);
      if |bs| < WORD_BYTES {
        UnpackPacked(bs);
      } else {
        assert Load(mem, w, 1 + |bs|)[0] == mem(w);
      }
    }
  }
}
