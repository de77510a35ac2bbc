/**
 The batched UTF-8 codec (`gu/utf8.c`), section 3 of RFC 3629.  Masks and
 shifts are written as remainders and multiples of powers of two.
 */
module Utf8 {
  import opened Wrappers

  type UCS = x: int | 0 <= x <= 0x10FFFF

  // --------------------------------------------------------------------- one character

  function EncodeLength(u: UCS): nat {
    if u < 0x80 then 1 else if u < 0x800 then 2 else if u < 0x10000 then 3 else 4
  }

  /** A continuation byte: `0x80 | (x & 0x3f)`. */
  function Cont(x: nat): Byte {
    0x80 + x % 64
  }

  /** The table of RFC 3629, section 3. */
  function Encoded(u: UCS): (bs: seq<Byte>)
    ensures |bs| == EncodeLength(u)
  {
    if u < 0x80 then [u]
    else if u < 0x800 then [0xC0 + u / 64, Cont(u)]
    else if u < 0x10000 then [0xE0 + u / 4096, Cont(u / 64), Cont(u)]
    else [0xF0 + u / 262144, Cont(u / 4096), Cont(u / 64), Cont(u)]
  }

  /** The bytes of a character, said by their ranges and the bits they carry. */
  ghost predicate StandsFor(u: UCS, bs: seq<Byte>) {
    && 1 <= |bs| <= 4
    && (forall i :: 1 <= i < |bs| ==> 0x80 <= bs[i] <= 0xBF)
    && match |bs|
       case 1 => bs[0] <= 0x7F && u == bs[0]
       case 2 => 0xC2 <= bs[0] <= 0xDF && u == (bs[0] as int - 0xC0) * 64 + (bs[1] as int - 0x80)
       case 3 =>
         && 0xE0 <= bs[0] <= 0xEF && (bs[0] == 0xE0 ==> bs[1] >= 0xA0)
         && u == (bs[0] as int - 0xE0) * 4096 + (bs[1] as int - 0x80) * 64 + (bs[2] as int - 0x80)
       case _ =>
         && 0xF0 <= bs[0] <= 0xF4 && (bs[0] == 0xF0 ==> bs[1] >= 0x90)
         && u == (bs[0] as int - 0xF0) * 262144 + (bs[1] as int - 0x80) * 4096 + (bs[2] as int - 0x80) * 64 + (bs[3] as int - 0x80)
  }

  lemma Digits(u: nat)
    ensures u == u / 64 * 64 + u % 64
    ensures u == u / 4096 * 4096 + u / 64 % 64 * 64 + u % 64
    ensures u == u / 262144 * 262144 + u / 4096 % 64 * 4096 + u / 64 % 64 * 64 + u % 64
  {
    ShiftStep(u, 0);
    ShiftStep(u, 1);
    ShiftStep(u, 2);
  }

  /** The table's bytes stand for the character... */
  lemma EncodedStands(u: UCS)
    ensures StandsFor(u, Encoded(u))
  {
    Digits(u);
    var bs := Encoded(u);
    if u >= 0x10000 {
      assert bs[1] == 0x80 + u / 4096 % 64 && bs[2] == 0x80 + u / 64 % 64 && bs[3] == 0x80 + u % 64;
    } else if u >= 0x800 {
      assert bs[1] == 0x80 + u / 64 % 64 && bs[2] == 0x80 + u % 64;
    }
  }

  /** ... and no others do. */
  lemma StandsOnce(u: UCS, bs: seq<Byte>)
    requires StandsFor(u, bs)
    ensures bs == Encoded(u)
  {
    Digits(u);
    EncodedStands(u);
    match |bs|
    case 1 => assert bs == [bs[0]];
    case 2 => assert bs == [bs[0], bs[1]];
    case 3 => assert bs == [bs[0], bs[1], bs[2]];
    case _ => assert bs == [bs[0], bs[1], bs[2], bs[3]];
  }

  /** Continuation bytes that follow a lead byte. */
  function Following(c: Byte): nat {
    if c < 0x80 then 0 else if c < 0xe0 then 1 else if c < 0xf0 then 2 else 3
  }

  /** The payload bits of a lead byte. */
  function Payload(c: Byte): nat {
    if c < 0x80 then c else if c < 0xe0 then c % 32 else if c < 0xf0 then c % 16 else c % 8
  }

  /** Shifting in the first `n` continuation bytes. */
  function Accumulated(bs: seq<Byte>, n: nat): nat
    requires n < |bs|
  {
    if n == 0 then Payload(bs[0]) else Accumulated(bs, n - 1) * 64 + bs[n] % 64
  }

  /** `u >> 6 * k` */
  function Shifted(u: nat, k: nat): nat {
    if k == 0 then u else if k == 1 then u / 64 else if k == 2 then u / 4096 else u / 262144
  }

  lemma ShiftStep(u: nat, k: nat)
    requires k < 3
    ensures Shifted(u, k) / 64 == Shifted(u, k + 1)
    ensures Shifted(u, k + 1) * 64 + Shifted(u, k) % 64 == Shifted(u, k)
  {}

  /** Lead byte marks for two, three and four bytes. */
  function Mark(n: nat): nat {
    if n == 0 then 0 else if n == 1 then 0xC0 else if n == 2 then 0xE0 else 0xF0
  }

  lemma EncodedAt(u: UCS, i: nat)
    requires i < EncodeLength(u)
    ensures var n := EncodeLength(u) - 1;
            Encoded(u)[i] == if i == 0 then Mark(n) + Shifted(u, n) else Cont(Shifted(u, n - i))
  {}

  lemma LeadOk(u: UCS)
    ensures var n := EncodeLength(u) - 1; var c := Encoded(u)[0];
            Following(c) == n && Payload(c) == Shifted(u, n)
  {}

  lemma ContOk(x: nat)
    ensures Cont(x) % 64 == x % 64
  {}

  lemma {:induction false} AccumulatedOk(u: UCS, bs: seq<Byte>, i: nat)
    requires Encoded(u) <= bs && i < EncodeLength(u)
    ensures Accumulated(bs, i) == Shifted(u, EncodeLength(u) - 1 - i)
  {
    var n := EncodeLength(u) - 1;
    assert bs[i] == Encoded(u)[i];
    if i == 0 {
      LeadOk(u);
    } else {
      AccumulatedOk(u, bs, i - 1);
      EncodedAt(u, i);
      ContOk(Shifted(u, n - i));
      ShiftStep(u, n - i);
    }
  }

  /** Decoding the first character of an encoding gives it back. */
  lemma DecodesOne(u: UCS, bs: seq<Byte>)
    requires Encoded(u) <= bs
    ensures Following(bs[0]) + 1 == EncodeLength(u)
    ensures Accumulated(bs, Following(bs[0])) == u
  {
    assert bs[0] == Encoded(u)[0];
    LeadOk(u);
    AccumulatedOk(u, bs, EncodeLength(u) - 1);
  }

  // ------------------------------------------------------------------------- sequences

  function EncodedAll(us: seq<UCS>): seq<Byte> {
    if us == [] then [] else Encoded(us[0]) + EncodedAll(us[1..])
  }

  lemma {:induction false} EncodedAllConcat(us: seq<UCS>, vs: seq<UCS>)
    ensures EncodedAll(us + vs) == EncodedAll(us) + EncodedAll(vs)
    decreases |us|
  {
    if us == [] {
      assert us + vs == vs;
    } else {
      assert (us + vs)[1..] == us[1..] + vs;
      EncodedAllConcat(us[1..], vs);
    }
  }

  lemma EncodedSnoc(us: seq<UCS>, k: nat)
    requires k < |us|
    ensures EncodedAll(us[..k + 1]) == EncodedAll(us[..k]) + Encoded(us[k])
  {
    assert us[..k + 1] == us[..k] + [us[k]];
    EncodedAllConcat(us[..k], [us[k]]);
    assert EncodedAll([us[k]]) == Encoded(us[k]);
  }

  /** The bytes stand for the characters, one after the other. */
  ghost predicate StandForAll(us: seq<UCS>, bs: seq<Byte>) {
    if us == [] then bs == []
    else exists n :: 0 <= n <= |bs| && StandsFor(us[0], bs[..n]) && StandForAll(us[1..], bs[n..])
  }

  lemma {:induction false} EncodedStandForAll(us: seq<UCS>, bs: seq<Byte>)
    ensures StandForAll(us, bs) <==> bs == EncodedAll(us)
    decreases |us|
  {
    if us != [] {
      var n := EncodeLength(us[0]);
      if bs == EncodedAll(us) {
        assert bs[..n] == Encoded(us[0]) && bs[n..] == EncodedAll(us[1..]);
        EncodedStands(us[0]);
        EncodedStandForAll(us[1..], bs[n..]);
      }
      if m :| 0 <= m <= |bs| && StandsFor(us[0], bs[..m]) && StandForAll(us[1..], bs[m..]) {
        StandsOnce(us[0], bs[..m]);
        EncodedStandForAll(us[1..], bs[m..]);
        assert bs == bs[..m] + bs[m..];
      }
    }
  }

  /** A character takes one to four bytes. */
  lemma {:induction false} EncodedSize(us: seq<UCS>)
    ensures |us| <= |EncodedAll(us)| <= 4 * |us|
    decreases |us|
  {
    if us != [] {
      EncodedSize(us[1..]);
    }
  }

  // ------------------------------------------------------------------------- encoding

  method EncodeOne(u: UCS, buf: array<Byte>, at: nat) returns (len: nat, ghost bs: seq<Byte>)
    requires at + EncodeLength(u) <= buf.Length
    modifies buf
    ensures len == EncodeLength(u)
    ensures buf[..] == old(buf[..at]) + bs + old(buf[at + len..])
    ensures StandsFor(u, bs) && bs == Encoded(u)
  {
    EncodedStands(u);
    bs := Encoded(u);
    if u < 0x80 {
      buf[at] := u;
      assert buf[..] == old(buf[..at]) + Encoded(u) + old(buf[at + 1..]);
      return 1, bs;
    }
    var n := if u < 0x800 then 1 else if u < 0x10000 then 2 else 3;
    ghost var e, before := Encoded(u), buf[..];
    var rest: nat := u;
    var i := n;
    while i > 0
      invariant 0 <= i <= n && rest == Shifted(u, n - i)
      invariant forall k :: 0 <= k < buf.Length ==>
                  buf[k] == if at + i < k <= at + n then e[k - at] else before[k]
    {
      EncodedAt(u, i);
      ShiftStep(u, n - i);
      buf[at + i] := Cont(rest);
      rest := rest / 64;
      i := i - 1;
    }
    EncodedAt(u, 0);
    buf[at] := LeadByte(u, n, rest);
    len := n + 1;
    ghost var want := before[..at] + e + before[at + len..];
    assert |want| == buf.Length;
    assert forall k :: 0 <= k < |want| ==> buf[k] == want[k];
    assert buf[..] == want;
  }

  lemma Between(a: seq<Byte>, b: seq<Byte>, c: seq<Byte>)
    ensures (a + b + c)[|a|..|a| + |b|] == b
  {}

  /** `ucs | ~(0x7f >> n)` as a byte. */
  function LeadByte(u: UCS, n: nat, rest: nat): Byte
    requires 1 <= n == EncodeLength(u) - 1 && rest == Shifted(u, n)
  {
    Mark(n) + rest
  }

  /** Encodes as many characters as fit between `at` and `end`: batches that
      cannot overflow first, then one by one. */
  method Encode(src: seq<UCS>, dst: array<Byte>, at: nat, end: nat) returns (k: nat, pos: nat)
    requires at <= end <= dst.Length
    modifies dst
    ensures k <= |src| && at <= pos <= end
    ensures dst[..] == old(dst[..at]) + EncodedAll(src[..k]) + old(dst[pos..])
    ensures StandForAll(src[..k], dst[..][at..pos])
    ensures pos == at + |EncodedAll(src[..k])|
    // the longest prefix that fits
    ensures forall j :: k < j <= |src| ==> |EncodedAll(src[..j])| > end - at
  {
    ghost var before := dst[..];
    k, pos := EncodeBatches(src, dst, at, end);
    while k < |src| && pos < end
      invariant k <= |src| && at <= pos <= end && Written(before, dst[..], at, pos, src[..k])
      decreases |src| - k
    {
      var len := EncodeLength(src[k]);
      if len > end - pos {
        break;
      }
      ghost var was := dst[..];
      var _, _ := EncodeOne(src[k], dst, pos);
      WrittenMore(before, was, dst[..], at, pos, src, k);
      pos := pos + len;
      k := k + 1;
    }
    forall j | k < j <= |src| ensures |EncodedAll(src[..j])| > end - at {
      LongerPrefix(src, k, j);
    }
    Between(before[..at], EncodedAll(src[..k]), before[pos..]);
    EncodedStandForAll(src[..k], dst[..][at..pos]);
  }

  /** As long as a quarter of the room is left, that many characters fit. */
  method EncodeBatches(src: seq<UCS>, dst: array<Byte>, at: nat, end: nat) returns (k: nat, pos: nat)
    requires at <= end <= dst.Length
    modifies dst
    ensures k <= |src| && at <= pos <= end && Written(old(dst[..]), dst[..], at, pos, src[..k])
    ensures k == |src| || end - pos < 4
  {
    ghost var before := dst[..];
    k, pos := 0, at;
    assert dst[..] == before[..at] + EncodedAll(src[..0]) + before[at..];
    while true
      invariant k <= |src| && at <= pos <= end && Written(before, dst[..], at, pos, src[..k])
      decreases |src| - k
    {
      var n := if |src| - k < (end - pos) / 4 then |src| - k else (end - pos) / 4;
      if n == 0 {
        break;
      }
      pos := EncodeBatch(src, dst, k, n, at, pos, before);
      k := k + n;
    }
  }

  method EncodeBatch(src: seq<UCS>, dst: array<Byte>, k: nat, n: nat, ghost at: nat, pos: nat,
                     ghost before: seq<Byte>)
      returns (pos': nat)
    requires k + n <= |src| && pos + 4 * n <= dst.Length == |before|
    requires Written(before, dst[..], at, pos, src[..k])
    modifies dst
    ensures pos <= pos' <= pos + 4 * n && Written(before, dst[..], at, pos', src[..k + n])
  {
    pos' := pos;
    for i := 0 to n
      invariant pos <= pos' <= pos + 4 * i && Written(before, dst[..], at, pos', src[..k + i])
    {
      ghost var was := dst[..];
      var len, _ := EncodeOne(src[k + i], dst, pos');
      WrittenMore(before, was, dst[..], at, pos', src, k + i);
      pos' := pos' + len;
    }
  }

  lemma LongerPrefix(src: seq<UCS>, k: nat, j: nat)
    requires k < j <= |src|
    ensures |EncodedAll(src[..j])| >= |EncodedAll(src[..k])| + EncodeLength(src[k])
  {
    EncodedSnoc(src, k);
    assert src[..j] == src[..k + 1] + src[k + 1..j];
    EncodedAllConcat(src[..k + 1], src[k + 1..j]);
  }

  /** The characters `us` have been written from `at` to `pos`, nothing else. */
  ghost predicate Written(before: seq<Byte>, now: seq<Byte>, at: nat, pos: nat, us: seq<UCS>) {
    && at <= pos <= |before| && pos == at + |EncodedAll(us)|
    && now == before[..at] + EncodedAll(us) + before[pos..]
  }

  lemma WrittenMore(before: seq<Byte>, was: seq<Byte>, now: seq<Byte>, at: nat, pos: nat, src: seq<UCS>, k: nat)
    requires k < |src| && Written(before, was, at, pos, src[..k]) && pos + EncodeLength(src[k]) <= |before|
    requires now == was[..pos] + Encoded(src[k]) + was[pos + EncodeLength(src[k])..]
    ensures Written(before, now, at, pos + EncodeLength(src[k]), src[..k + 1])
  {
    EncodedSnoc(src, k);
    var len := EncodeLength(src[k]);
    assert was[..pos] == before[..at] + EncodedAll(src[..k]);
    assert was[pos + len..] == before[pos..][len..] == before[pos + len..];
  }

  // ------------------------------------------------------------------------- decoding

  /** Reads one character at `at`; the bytes of a whole character are there. */
  method DecodeOne(src: seq<Byte>, at: nat, ghost u: UCS) returns (ucs: UCS, len: nat)
    requires at < |src| && Encoded(u) <= src[at..]
    ensures ucs == u && len == EncodeLength(u)
  {
    ghost var bs := src[at..];
    DecodesOne(u, bs);
    var c := src[at];
    if c < 0x80 {
      return c, 1;
    }
    var n := if c < 0xe0 then 1 else if c < 0xf0 then 2 else 3;
    var acc: nat := Payload(c);
    var i := 1;
    while i <= n
      invariant 1 <= i <= n + 1 && n == Following(bs[0]) && acc == Accumulated(bs, i - 1)
    {
      c := src[at + i];
      acc := acc * 64 + c % 64;
      i := i + 1;
    }
    ucs, len := acc, i;
  }

  /** Decodes a well-formed source, a batch of at least a quarter of the
      remaining bytes at a time: no batch runs past the end, since no character
      takes more than four bytes. */
  method Decode(src: seq<Byte>, dst: array<UCS>, at: nat, end: nat, ghost us: seq<UCS>)
      returns (pos: nat, k: nat)
    requires at <= end <= dst.Length && src == EncodedAll(us)
    modifies dst
    // all the characters, or as many as there is room for
    ensures k == if |us| < end - at then |us| else end - at
    ensures dst[..] == old(dst[..at]) + us[..k] + old(dst[at + k..])
    ensures pos == |EncodedAll(us[..k])| <= |src|
  {
    ghost var before := dst[..];
    pos, k := 0, 0;
    assert dst[..] == before[..at] + us[..0] + before[at..];
    while true
      invariant k <= |us| && at + k <= end && Reading(us, src, pos, k) && Stored(before, dst[..], at, us, k)
      decreases |us| - k
    {
      var sz := (|src| - pos + 3) / 4;
      if end - (at + k) < sz {
        sz := end - (at + k);
      }
      EnoughLeft(us, src, pos, k);
      if sz == 0 {
        break;
      }
      pos := DecodeBatch(src, pos, dst, at, k, sz, before, us);
      k := k + sz;
    }
  }

  method DecodeBatch(src: seq<Byte>, pos: nat, dst: array<UCS>, at: nat, k: nat, sz: nat,
                     ghost before: seq<UCS>, ghost us: seq<UCS>)
      returns (pos': nat)
    requires k + sz <= |us| && at + k + sz <= dst.Length && |before| == dst.Length
    requires Reading(us, src, pos, k) && Stored(before, dst[..], at, us, k)
    modifies dst
    ensures Reading(us, src, pos', k + sz) && Stored(before, dst[..], at, us, k + sz)
  {
    pos' := pos;
    for i := 0 to sz
      invariant Reading(us, src, pos', k + i) && Stored(before, dst[..], at, us, k + i)
    {
      pos' := DecodeNext(src, pos', dst, at, k + i, before, us);
    }
  }

  method DecodeNext(src: seq<Byte>, pos: nat, dst: array<UCS>, at: nat, k: nat,
                    ghost before: seq<UCS>, ghost us: seq<UCS>)
      returns (pos': nat)
    requires k < |us| && at + k < dst.Length == |before|
    requires Reading(us, src, pos, k) && Stored(before, dst[..], at, us, k)
    modifies dst
    ensures Reading(us, src, pos', k + 1) && Stored(before, dst[..], at, us, k + 1)
  {
    NextReady(us, src, pos, k);
    var u, len := DecodeOne(src, pos, us[k]);
    StoredMore(before, dst[..], at, us, k);
    dst[at + k] := u;
    pos' := pos + len;
  }

  /** The first `k` characters have been stored from `at` on, nothing else. */
  ghost predicate Stored(before: seq<UCS>, now: seq<UCS>, at: nat, us: seq<UCS>, k: nat) {
    k <= |us| && at + k <= |before| && now == before[..at] + us[..k] + before[at + k..]
  }

  lemma StoredMore(before: seq<UCS>, now: seq<UCS>, at: nat, us: seq<UCS>, k: nat)
    requires Stored(before, now, at, us, k) && k < |us| && at + k < |before|
    ensures Stored(before, now[at + k := us[k]], at, us, k + 1)
  {}

  /** `pos` bytes hold the first `k` characters. */
  ghost predicate Reading(us: seq<UCS>, src: seq<Byte>, pos: nat, k: nat) {
    k <= |us| && src == EncodedAll(us) && pos == |EncodedAll(us[..k])| <= |src|
    && src[pos..] == EncodedAll(us[k..])
  }

  /** At least a quarter of the remaining bytes, rounded up, are characters. */
  lemma EnoughLeft(us: seq<UCS>, src: seq<Byte>, pos: nat, k: nat)
    requires Reading(us, src, pos, k)
    ensures (|src| - pos + 3) / 4 <= |us| - k
    ensures |src| == pos ==> k == |us|
  {
    EncodedSize(us[k..]);
  }

  lemma NextReady(us: seq<UCS>, src: seq<Byte>, pos: nat, k: nat)
    requires Reading(us, src, pos, k) && k < |us|
    ensures pos < |src| && Encoded(us[k]) <= src[pos..]
    ensures Reading(us, src, pos + EncodeLength(us[k]), k + 1)
  {
    EncodedSnoc(us, k);
    assert us[k..][1..] == us[k + 1..];
    var len := EncodeLength(us[k]);
    assert src[pos..][len..] == src[pos + len..];
  }

  /** Encoding into a buffer that is large enough and decoding gives the
      characters back. */
  method RoundTrip(us: seq<UCS>) returns (vs: seq<UCS>)
    ensures vs == us
  {
    EncodedSize(us);
    var bytes := new Byte[4 * |us|](_ => 0);
    var k, n := Encode(us, bytes, 0, bytes.Length);
    assert us[..|us|] == us && us[..k] == us;
    var out := new UCS[|us|](_ => 0);
    assert bytes[..n] == EncodedAll(us);
    var _, m := Decode(bytes[..n], out, 0, out.Length, us);
    vs := out[..];
    assert us[..m] == us;
  }
}
