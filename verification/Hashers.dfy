/**
 Equality and hashing built by recursion on a type description (`gu/hash.c`).
 Both read values from memory at an address; memory does not change meanwhile.
 */
module Hashers {
  import opened Wrappers
  import opened Strings
  import HashMap

  type Addr = nat

  datatype Member = Member(offset: nat, ty: Ty)

  datatype Ty =
    | IntTy                        // int32_t, uint16_t, uint8_t, GuWord
    | SharedTy                     // a pointer compared as a pointer
    | AbstractTy                   // the address itself
    | SeqTy(elem: Ty, elemSize: nat)
    | VariantTy(ctors: seq<Ty>)
    | StructTy(members: seq<Member>)
    | PtrTy(pointed: Ty)
    | StringTy

  datatype SeqData = SeqData(data: Addr, len: nat)
  datatype VariantData = VariantData(tag: int, data: Addr)

  /** What each kind of value at an address reads as; 0 is the null address. */
  datatype Heap = Heap(
    word: Addr -> nat,
    ptr: Addr -> Addr,
    sequence: Addr -> SeqData,
    variant: Addr -> VariantData,
    str: Addr -> nat,
    text: Memory)

  /** A value as it is copied, for instance into the key array of a map: the
      bytes at its address, not what they point to. */
  datatype Val = Word(w: nat) | Seq(s: SeqData) | Variant(v: VariantData) | Fields(fs: seq<Val>)

  function ValueAt(m: Heap, ty: Ty, p: Addr): Val
    decreases ty
  {
    match ty
    case IntTy => Word(m.word(p))
    case SharedTy => Word(m.ptr(p))
    case AbstractTy => Word(p)
    case SeqTy(_, _) => Seq(m.sequence(p))
    case VariantTy(_) => Variant(m.variant(p))
    case StructTy(members) =>
      Fields(seq(|members|, i requires 0 <= i < |members| => MemberAt(m, members[i], p)))
    case PtrTy(_) => Word(m.ptr(p))
    case StringTy => Word(m.str(p))
  }

  function MemberAt(m: Heap, mem: Member, p: Addr): Val
    decreases mem
  {
    ValueAt(m, mem.ty, p + mem.offset)
  }

  /** The value whose bytes are all zero. */
  function Zero(ty: Ty): Val {
    match ty
    case SeqTy(_, _) => Seq(SeqData(0, 0))
    case VariantTy(_) => Variant(VariantData(-1, 0))
    case StructTy(members) => Fields(seq(|members|, i requires 0 <= i < |members| => Zero(members[i].ty)))
    case _ => Word(0)
  }

  /** A value of the type. */
  predicate Shaped(ty: Ty, v: Val) {
    match ty
    case SeqTy(_, _) => v.Seq?
    case VariantTy(_) => v.Variant?
    case StructTy(members) =>
      v.Fields? && |v.fs| == |members| && forall i :: 0 <= i < |members| ==> Shaped(members[i].ty, v.fs[i])
    case _ => v.Word?
  }

  /** Null variants, and only they, have a negative tag, and strings are well
      formed. */
  predicate Good(m: Heap, ty: Ty, v: Val) {
    && Shaped(ty, v)
    && match ty
       case VariantTy(_) => v.v.tag < 0 <==> v.v.data == 0
       case StructTy(members) => forall i :: 0 <= i < |members| ==> Good(m, members[i].ty, v.fs[i])
       case StringTy => StringOk(m.text, v.w)
       case _ => true
  }

  /** Everything in memory is as it should be. */
  ghost predicate HeapOk(m: Heap) {
    && (forall p :: m.variant(p).tag < 0 <==> m.variant(p).data == 0)
    && (forall p :: StringOk(m.text, m.str(p)))
  }

  lemma {:induction false} ShapedAt(m: Heap, ty: Ty, p: Addr)
    ensures Shaped(ty, ValueAt(m, ty, p))
    decreases ty
  {
    if ty.StructTy? {
      forall i | 0 <= i < |ty.members| ensures Shaped(ty.members[i].ty, MemberAt(m, ty.members[i], p)) {
        ShapedAt(m, ty.members[i].ty, p + ty.members[i].offset);
      }
    }
  }

  lemma {:induction false} GoodAt(m: Heap, ty: Ty, p: Addr)
    requires HeapOk(m)
    ensures Good(m, ty, ValueAt(m, ty, p))
    decreases ty
  {
    ShapedAt(m, ty, p);
    if ty.StructTy? {
      forall i | 0 <= i < |ty.members| ensures Good(m, ty.members[i].ty, MemberAt(m, ty.members[i], p)) {
        GoodAt(m, ty.members[i].ty, p + ty.members[i].offset);
      }
    }
  }

  // ------------------------------------------------------------------------- equality

  function EqVal(m: Heap, ty: Ty, v: Val, w: Val): bool
    decreases ty, 0
  {
    match ty
    case SeqTy(elem, size) =>
      v.Seq? && w.Seq? && v.s.len == w.s.len
      && (v.s.data == w.s.data || ElemsEq(m, elem, size, v.s.data, w.s.data, v.s.len))
    case VariantTy(ctors) =>
      v.Variant? && w.Variant? && v.v.tag == w.v.tag
      && (v.v.data == w.v.data || (0 <= v.v.tag < |ctors| && Eq(m, ctors[v.v.tag], v.v.data, w.v.data)))
    case StructTy(members) =>
      v.Fields? && w.Fields? && |v.fs| == |w.fs| == |members|
      && forall i :: 0 <= i < |members| ==> EqVal(m, members[i].ty, v.fs[i], w.fs[i])
    case PtrTy(pointed) =>
      v.Word? && w.Word? && if v.w != 0 && w.w != 0 then Eq(m, pointed, v.w, w.w) else v == w
    case StringTy => v.Word? && w.Word? && StringEq(m.text, v.w, w.w)
    case _ => v == w
  }

  /** Equality of the values at two addresses. */
  function Eq(m: Heap, ty: Ty, p: Addr, q: Addr): bool
    decreases ty, 1
  {
    EqVal(m, ty, ValueAt(m, ty, p), ValueAt(m, ty, q))
  }

  predicate ElemsEq(m: Heap, elem: Ty, size: nat, d: Addr, e: Addr, n: nat)
    decreases elem, 2
  {
    forall i :: 0 <= i < n ==> Eq(m, elem, At(d, i, size), At(e, i, size))
  }

  function At(d: Addr, i: nat, size: nat): Addr {
    d + i * size
  }

  // ------------------------------------------------------------------ what equality means

  /** All that a value stands for: numbers, shared pointers and abstract values as they
      are, sequences and structs element by element, pointers and variants by what they
      lead to, strings by their bytes. */
  datatype Content =
    | Number(n: nat)
    | Place(a: Addr)
    | List(items: seq<Content>)
    | Struct(members: seq<Content>)
    | Tagged(tag: int, of: Content)
    | Foreign(tag: int, a: Addr)   // a variant without a value of its type
    | Null
    | To(of: Content)
    | Text(bytes: Option<seq<Byte>>)

  function ContentOf(m: Heap, ty: Ty, v: Val): Content
    requires Shaped(ty, v)
    decreases ty, 0, 0
  {
    match ty
    case IntTy => Number(v.w)
    case SharedTy => Place(v.w)
    case AbstractTy => Place(v.w)
    case SeqTy(elem, size) => List(seq(v.s.len, i requires 0 <= i < v.s.len => ContentAt(m, elem, At(v.s.data, i, size))))
    case VariantTy(ctors) =>
      if 0 <= v.v.tag < |ctors| then Tagged(v.v.tag, ContentAt(m, ctors[v.v.tag], v.v.data)) else Foreign(v.v.tag, v.v.data)
    case StructTy(members) =>
      Struct(seq(|members|, i requires 0 <= i < |members| => ContentOf(m, members[i].ty, v.fs[i])))
    case PtrTy(pointed) => if v.w == 0 then Null else To(ContentAt(m, pointed, v.w))
    case StringTy => Text(if v.w == 0 then None else Contents(m.text, v.w))
  }

  /** What the value at an address stands for. */
  function ContentAt(m: Heap, ty: Ty, p: Addr): Content
    decreases ty, 1, 0
  {
    ShapedAt(m, ty, p);
    ContentOf(m, ty, ValueAt(m, ty, p))
  }

  /** Values are equal exactly when they stand for the same... */
  lemma {:induction false} EqMeans(m: Heap, ty: Ty, v: Val, w: Val)
    requires Shaped(ty, v) && Shaped(ty, w)
    ensures EqVal(m, ty, v, w) <==> ContentOf(m, ty, v) == ContentOf(m, ty, w)
    decreases ty, 1
  {
    match ty
    case SeqTy(elem, size) => SeqMeans(m, elem, size, v.s, w.s);
    case VariantTy(ctors) =>
      if 0 <= v.v.tag < |ctors| {
        EqAtMeans(m, ctors[v.v.tag], v.v.data, w.v.data);
      }
    case StructTy(members) => StructMeans(m, ty, v, w);
    case PtrTy(pointed) => EqAtMeans(m, pointed, v.w, w.w);
    case _ =>
  }

  /** ... and so are the values at two addresses. */
  lemma {:induction false} EqAtMeans(m: Heap, ty: Ty, p: Addr, q: Addr)
    ensures Eq(m, ty, p, q) <==> ContentAt(m, ty, p) == ContentAt(m, ty, q)
    decreases ty, 2
  {
    ShapedAt(m, ty, p);
    ShapedAt(m, ty, q);
    EqMeans(m, ty, ValueAt(m, ty, p), ValueAt(m, ty, q));
  }

  lemma {:induction false} SeqMeans(m: Heap, elem: Ty, size: nat, s: SeqData, t: SeqData)
    ensures EqVal(m, SeqTy(elem, size), Seq(s), Seq(t)) <==>
            ContentOf(m, SeqTy(elem, size), Seq(s)) == ContentOf(m, SeqTy(elem, size), Seq(t))
    decreases elem, 3
  {
    var ty := SeqTy(elem, size);
    var xs, ys := ContentOf(m, ty, Seq(s)).items, ContentOf(m, ty, Seq(t)).items;
    if s.len == t.len {
      forall i | 0 <= i < s.len
        ensures Eq(m, elem, At(s.data, i, size), At(t.data, i, size)) <==> xs[i] == ys[i]
      {
        EqAtMeans(m, elem, At(s.data, i, size), At(t.data, i, size));
      }
    } else {
      assert |xs| != |ys|;
    }
  }

  lemma {:induction false} StructMeans(m: Heap, ty: Ty, v: Val, w: Val)
    requires ty.StructTy? && Shaped(ty, v) && Shaped(ty, w)
    ensures EqVal(m, ty, v, w) <==> ContentOf(m, ty, v) == ContentOf(m, ty, w)
    decreases ty, 0
  {
    var xs, ys := ContentOf(m, ty, v).members, ContentOf(m, ty, w).members;
    forall i | 0 <= i < |ty.members| ensures EqVal(m, ty.members[i].ty, v.fs[i], w.fs[i]) <==> xs[i] == ys[i] {
      EqMeans(m, ty.members[i].ty, v.fs[i], w.fs[i]);
    }
  }

  // -------------------------------------------------------------------------- hashing

  /** The eight bytes of a word, lowest first. */
  function WordBytes(w: nat, n: nat): seq<Byte> {
    if n == 0 then [] else [w % 256] + WordBytes(w / 256, n - 1)
  }

  function HashWord(h: nat, w: nat): nat {
    HashedBytes(h, WordBytes(w, 8))
  }

  /** `~h` */
  function Complement(h: nat): nat {
    HASH_LIMIT - 1 - h % HASH_LIMIT
  }

  /** A tag as an unsigned word. */
  function TagWord(tag: int): nat {
    tag % HASH_LIMIT
  }

  function HashVal(m: Heap, ty: Ty, h: nat, v: Val): nat
    requires Shaped(ty, v)
    decreases ty, 1, 0
  {
    match ty
    case SeqTy(elem, size) => HashElems(m, elem, size, HashWord(h, v.s.len), v.s.data, v.s.len)
    case VariantTy(ctors) =>
      var h' := HashWord(h, TagWord(v.v.tag));
      if v.v.data == 0 || !(0 <= v.v.tag < |ctors|) then Complement(h') else Hash(m, ctors[v.v.tag], h', v.v.data)
    case StructTy(members) => HashMembers(m, ty, h, v, |members|)
    case PtrTy(pointed) => if v.w != 0 then Hash(m, pointed, h, v.w) else Complement(h)
    case StringTy => StringHash(m.text, v.w)
    case _ => HashWord(h, v.w)
  }

  /** The hash of the value at an address. */
  function Hash(m: Heap, ty: Ty, h: nat, p: Addr): nat
    decreases ty, 2, 0
  {
    ShapedAt(m, ty, p);
    HashVal(m, ty, h, ValueAt(m, ty, p))
  }

  function HashElems(m: Heap, elem: Ty, size: nat, h: nat, d: Addr, n: nat): nat
    decreases elem, 3, n
  {
    if n == 0 then h else Hash(m, elem, HashElems(m, elem, size, h, d, n - 1), At(d, n - 1, size))
  }

  function HashMembers(m: Heap, ty: Ty, h: nat, v: Val, n: nat): nat
    requires ty.StructTy? && Shaped(ty, v) && n <= |ty.members|
    decreases ty, 0, n
  {
    if n == 0 then h else HashVal(m, ty.members[n - 1].ty, HashMembers(m, ty, h, v, n - 1), v.fs[n - 1])
  }

  // -------------------------------------------------------------------- what a hash means

  /** What can happen to a hash: a byte is mixed in, all bits are flipped, or it is
      replaced by that of a string. */
  datatype Mark = Mix(b: Byte) | Flip | Start(h: nat)

  function Marked(h: nat, mark: Mark): nat {
    match mark
    case Mix(b) => HashByte(h, b)
    case Flip => Complement(h)
    case Start(k) => k
  }

  function Replay(h: nat, ms: seq<Mark>): nat {
    if ms == [] then h else Marked(Replay(h, ms[..|ms| - 1]), ms[|ms| - 1])
  }

  function Joined(mss: seq<seq<Mark>>): seq<Mark> {
    if mss == [] then [] else Joined(mss[..|mss| - 1]) + mss[|mss| - 1]
  }

  function Mixes(bs: seq<Byte>): (ms: seq<Mark>)
    ensures |ms| == |bs|
  {
    seq(|bs|, i requires 0 <= i < |bs| => Mix(bs[i]))
  }

  function Digits(w: nat): seq<Mark> {
    Mixes(WordBytes(w, 8))
  }

  /** What contents do to a hash: words lowest byte first, sequences behind their lengths,
      variants behind their tags, the rest in order. */
  function Marks(c: Content): seq<Mark> {
    match c
    case Number(n) => Digits(n)
    case Place(a) => Digits(a)
    case List(items) => Digits(|items|) + Joined(seq(|items|, i requires 0 <= i < |items| => Marks(items[i])))
    case Struct(members) => Joined(seq(|members|, i requires 0 <= i < |members| => Marks(members[i])))
    case Tagged(tag, of) => Digits(TagWord(tag)) + Marks(of)
    case Foreign(tag, _) => Digits(TagWord(tag)) + [Flip]
    case Null => [Flip]
    case To(of) => Marks(of)
    case Text(None) => [Start(0)]
    case Text(Some(bs)) => [Start(if |bs| < WORD_BYTES then Packed(bs) else HashedBytes(0, bs))]
  }

  lemma {:induction false} ReplayMore(h: nat, a: seq<Mark>, b: seq<Mark>)
    ensures Replay(h, a + b) == Replay(Replay(h, a), b)
    decreases |b|
  {
    if b == [] {
      assert a + b == a;
    } else {
      var k := |b| - 1;
      assert (a + b)[..|a + b| - 1] == a + b[..k];
      ReplayMore(h, a, b[..k]);
    }
  }

  lemma {:induction false} ReplayMixes(h: nat, bs: seq<Byte>)
    ensures Replay(h, Mixes(bs)) == HashedBytes(h, bs)
    decreases |bs|
  {
    if bs != [] {
      var k := |bs| - 1;
      assert Mixes(bs)[..k] == Mixes(bs[..k]);
      ReplayMixes(h, bs[..k]);
    }
  }

  /** The hash of a value is what its contents do to the seed... */
  lemma {:induction false} HashMeans(m: Heap, ty: Ty, h: nat, v: Val)
    requires HeapOk(m) && Good(m, ty, v)
    ensures HashVal(m, ty, h, v) == Replay(h, Marks(ContentOf(m, ty, v)))
    decreases ty, 1, 0
  {
    match ty
    case SeqTy(elem, size) =>
      ReplayMixes(h, WordBytes(v.s.len, 8));
      ElemsMean(m, ty, HashWord(h, v.s.len), v.s, v.s.len);
      var mss := Each(ContentOf(m, ty, v).items);
      assert mss[..v.s.len] == mss;
      ReplayMore(h, Digits(v.s.len), Joined(mss));
    case VariantTy(ctors) =>
      ReplayMixes(h, WordBytes(TagWord(v.v.tag), 8));
      if 0 <= v.v.tag < |ctors| {
        HashAtMeans(m, ctors[v.v.tag], HashWord(h, TagWord(v.v.tag)), v.v.data);
        ReplayMore(h, Digits(TagWord(v.v.tag)), Marks(ContentAt(m, ctors[v.v.tag], v.v.data)));
      } else {
        ReplayMore(h, Digits(TagWord(v.v.tag)), [Flip]);
      }
    case StructTy(members) =>
      MembersMean(m, ty, h, v, |members|);
      var mss := Each(ContentOf(m, ty, v).members);
      assert mss[..|members|] == mss;
    case PtrTy(pointed) =>
      if v.w != 0 {
        HashAtMeans(m, pointed, h, v.w);
      }
    case StringTy =>
      if v.w != 0 {
        StringOkRepresents(m.text, v.w);
        var bs :| Represents(m.text, v.w, bs);
        RepresentsContents(m.text, v.w, bs);
      }
    case _ => ReplayMixes(h, WordBytes(v.w, 8));
  }

  function Each(cs: seq<Content>): seq<seq<Mark>> {
    seq(|cs|, i requires 0 <= i < |cs| => Marks(cs[i]))
  }

  /** ... and so is that of the value at an address. */
  lemma {:induction false} HashAtMeans(m: Heap, ty: Ty, h: nat, p: Addr)
    requires HeapOk(m)
    ensures Hash(m, ty, h, p) == Replay(h, Marks(ContentAt(m, ty, p)))
    decreases ty, 2, 0
  {
    GoodAt(m, ty, p);
    HashMeans(m, ty, h, ValueAt(m, ty, p));
  }

  lemma {:induction false} ElemsMean(m: Heap, ty: Ty, h: nat, s: SeqData, n: nat)
    requires HeapOk(m) && ty.SeqTy? && n <= s.len
    ensures HashElems(m, ty.elem, ty.elemSize, h, s.data, n) ==
            Replay(h, Joined(Each(ContentOf(m, ty, Seq(s)).items)[..n]))
    decreases ty, 0, n
  {
    if n > 0 {
      ElemsMean(m, ty, h, s, n - 1);
      var mss := Each(ContentOf(m, ty, Seq(s)).items);
      assert mss[..n][..n - 1] == mss[..n - 1];
      ReplayMore(h, Joined(mss[..n - 1]), mss[n - 1]);
      HashAtMeans(m, ty.elem, HashElems(m, ty.elem, ty.elemSize, h, s.data, n - 1), At(s.data, n - 1, ty.elemSize));
    }
  }

  lemma {:induction false} MembersMean(m: Heap, ty: Ty, h: nat, v: Val, n: nat)
    requires HeapOk(m) && ty.StructTy? && Good(m, ty, v) && n <= |ty.members|
    ensures HashMembers(m, ty, h, v, n) == Replay(h, Joined(Each(ContentOf(m, ty, v).members)[..n]))
    decreases ty, 0, n
  {
    if n > 0 {
      MembersMean(m, ty, h, v, n - 1);
      var mss := Each(ContentOf(m, ty, v).members);
      assert mss[..n][..n - 1] == mss[..n - 1];
      ReplayMore(h, Joined(mss[..n - 1]), mss[n - 1]);
      HashMeans(m, ty.members[n - 1].ty, HashMembers(m, ty, h, v, n - 1), v.fs[n - 1]);
    }
  }

  /** Contents of a value of a type without pointers to follow and strings, with all
      words in 64 bits and variants null or of the type. */
  predicate Plain(ty: Ty, c: Content) {
    match ty
    case IntTy => c.Number? && c.n < HASH_LIMIT
    case SharedTy => c.Place? && c.a < HASH_LIMIT
    case AbstractTy => c.Place? && c.a < HASH_LIMIT
    case SeqTy(elem, _) =>
      c.List? && |c.items| < HASH_LIMIT && forall i :: 0 <= i < |c.items| ==> Plain(elem, c.items[i])
    case VariantTy(ctors) =>
      || (c.Foreign? && c.tag < 0 && -2 * c.tag < HASH_LIMIT && c.a == 0)
      || (c.Tagged? && 0 <= c.tag < |ctors| && 2 * c.tag < HASH_LIMIT && Plain(ctors[c.tag], c.of))
    case StructTy(members) =>
      c.Struct? && |c.members| == |members| && forall i :: 0 <= i < |members| ==> Plain(members[i].ty, c.members[i])
    case _ => false
  }

  lemma {:induction false} WordBytesTell(v: nat, w: nat, n: nat)
    requires WordBytes(v, n) == WordBytes(w, n) && v < Power(256, n) && w < Power(256, n)
    ensures v == w
  {
    if n > 0 {
      assert WordBytes(v, n)[0] == WordBytes(w, n)[0];
      assert WordBytes(v, n)[1..] == WordBytes(v / 256, n - 1) && WordBytes(w, n)[1..] == WordBytes(w / 256, n - 1);
      WordBytesTell(v / 256, w / 256, n - 1);
    }
  }

  lemma {:induction false} WordBytesLength(w: nat, n: nat)
    ensures |WordBytes(w, n)| == n
  {
    if n > 0 {
      WordBytesLength(w / 256, n - 1);
    }
  }

  lemma DigitsTell(v: nat, w: nat, r: seq<Mark>, s: seq<Mark>)
    requires Digits(v) + r == Digits(w) + s && v < HASH_LIMIT && w < HASH_LIMIT
    ensures v == w && r == s
  {
    WordBytesLength(v, 8);
    WordBytesLength(w, 8);
    var a, b := WordBytes(v, 8), WordBytes(w, 8);
    forall i | 0 <= i < 8 ensures a[i] == b[i] {
      assert (Digits(v) + r)[i] == Mix(a[i]) && (Digits(w) + s)[i] == Mix(b[i]);
    }
    assert a == b;
    assert Power(256, 8) == HASH_LIMIT by {
      assert Power(256, 4) == 0x1_0000_0000;
    }
    WordBytesTell(v, w, 8);
    assert (Digits(v) + r)[8..] == r && (Digits(w) + s)[8..] == s;
  }

  lemma Regroup(a: seq<Mark>, b: seq<Mark>, r: seq<Mark>)
    ensures a + b + r == a + (b + r)
  {}

  /** What such contents do to a hash tells them from any others of the type, whatever
      follows: everything that counts for equality counts for the hash. */
  lemma {:induction false} MarksTell(ty: Ty, c: Content, d: Content, r: seq<Mark>, s: seq<Mark>)
    requires Plain(ty, c) && Plain(ty, d) && Marks(c) + r == Marks(d) + s
    ensures c == d && r == s
    decreases ty, 1, 0
  {
    match ty
    case SeqTy(elem, _) =>
      var cs, ds := Each(c.items), Each(d.items);
      Regroup(Digits(|c.items|), Joined(cs), r);
      Regroup(Digits(|d.items|), Joined(ds), s);
      DigitsTell(|c.items|, |d.items|, Joined(cs) + r, Joined(ds) + s);
      EachTells(ty, c.items, d.items, r, s);
    case VariantTy(_) => VariantTells(ty, c, d, r, s);
    case StructTy(members) => EachTells(ty, c.members, d.members, r, s);
    case IntTy => DigitsTell(c.n, d.n, r, s);
    case SharedTy => DigitsTell(c.a, d.a, r, s);
    case AbstractTy => DigitsTell(c.a, d.a, r, s);
    case _ =>
  }

  lemma TagWordTells(s: int, t: int)
    requires -(HASH_LIMIT as int) < 2 * s < HASH_LIMIT && -(HASH_LIMIT as int) < 2 * t < HASH_LIMIT
    requires TagWord(s) == TagWord(t)
    ensures s == t
  {}

  function BehindTag(c: Content): seq<Mark>
    requires c.Tagged? || c.Foreign?
  {
    if c.Tagged? then Marks(c.of) else [Flip]
  }

  lemma {:induction false} VariantTells(ty: Ty, c: Content, d: Content, r: seq<Mark>, s: seq<Mark>)
    requires ty.VariantTy? && Plain(ty, c) && Plain(ty, d) && Marks(c) + r == Marks(d) + s
    ensures c == d && r == s
    decreases ty, 0, 0
  {
    var p, q := BehindTag(c), BehindTag(d);
    assert p + r == q + s && c.tag == d.tag by {
      Regroup(Digits(TagWord(c.tag)), p, r);
      Regroup(Digits(TagWord(d.tag)), q, s);
      DigitsTell(TagWord(c.tag), TagWord(d.tag), p + r, q + s);
      TagWordTells(c.tag, d.tag);
    }
    if c.Tagged? {
      MarksTell(ty.ctors[c.tag], c.of, d.of, r, s);
    } else {
      assert ([Flip] + r)[1..] == r && ([Flip] + s)[1..] == s;
    }
  }

  /** The type of the `i`-th part of a sequence or struct. */
  function PartTy(ty: Ty, i: nat): (part: Ty)
    requires ty.SeqTy? || (ty.StructTy? && i < |ty.members|)
    ensures part < ty
  {
    if ty.SeqTy? then ty.elem else ty.members[i].ty
  }

  lemma JoinedFirst(mss: seq<seq<Mark>>)
    requires mss != []
    ensures Joined(mss) == mss[0] + Joined(mss[1..])
    decreases |mss|
  {
    if |mss| > 1 {
      var k := |mss| - 1;
      JoinedFirst(mss[..k]);
      assert mss[..k][1..] == mss[1..][..k - 1];
      assert mss[1..][k - 1] == mss[k];
    }
  }

  lemma JoinedFrom(cs: seq<Content>, k: nat, r: seq<Mark>)
    requires k < |cs|
    ensures Joined(Each(cs)[k..]) + r == Marks(cs[k]) + (Joined(Each(cs)[k + 1..]) + r)
  {
    var p := Each(cs)[k..];
    JoinedFirst(p);
    assert p[1..] == Each(cs)[k + 1..];
    Regroup(p[0], Joined(p[1..]), r);
  }

  lemma {:induction false} EachTells(ty: Ty, cs: seq<Content>, ds: seq<Content>, r: seq<Mark>, s: seq<Mark>, k: nat := 0)
    requires |cs| == |ds| && k <= |cs| && (ty.SeqTy? || (ty.StructTy? && |ty.members| == |cs|))
    requires forall i :: 0 <= i < |cs| ==> Plain(PartTy(ty, i), cs[i]) && Plain(PartTy(ty, i), ds[i])
    requires Joined(Each(cs)[k..]) + r == Joined(Each(ds)[k..]) + s
    ensures cs[k..] == ds[k..] && r == s
    decreases ty, 0, |cs| - k
  {
    if k < |cs| {
      JoinedFrom(cs, k, r);
      JoinedFrom(ds, k, s);
      MarksTell(PartTy(ty, k), cs[k], ds[k], Joined(Each(cs)[k + 1..]) + r, Joined(Each(ds)[k + 1..]) + s);
      EachTells(ty, cs, ds, r, s, k + 1);
      assert cs[k..] == [cs[k]] + cs[k + 1..] && ds[k..] == [ds[k]] + ds[k + 1..];
    } else {
      assert Joined(Each(cs)[k..]) == [] == Joined(Each(ds)[k..]);
      assert [] + r == r && [] + s == s;
    }
  }

  // ---------------------------------------------------------------------- equivalence

  lemma {:induction false} EqReflexive(m: Heap, ty: Ty, v: Val)
    requires Shaped(ty, v)
    ensures EqVal(m, ty, v, v)
    decreases ty
  {
    match ty
    case StructTy(members) =>
      forall i | 0 <= i < |members| ensures EqVal(m, members[i].ty, v.fs[i], v.fs[i]) {
        EqReflexive(m, members[i].ty, v.fs[i]);
      }
    case PtrTy(pointed) =>
      ShapedAt(m, pointed, v.w);
      EqReflexive(m, pointed, ValueAt(m, pointed, v.w));
    case _ =>
  }

  lemma {:induction false} EqSymmetric(m: Heap, ty: Ty, v: Val, w: Val)
    requires EqVal(m, ty, v, w)
    ensures EqVal(m, ty, w, v)
    decreases ty
  {
    match ty
    case SeqTy(elem, size) =>
      if v.s.data != w.s.data {
        forall i | 0 <= i < v.s.len ensures Eq(m, elem, At(w.s.data, i, size), At(v.s.data, i, size)) {
          assert Eq(m, elem, At(v.s.data, i, size), At(w.s.data, i, size));
          EqSymmetric(m, elem, ValueAt(m, elem, At(v.s.data, i, size)), ValueAt(m, elem, At(w.s.data, i, size)));
        }
      }
    case VariantTy(ctors) =>
      if v.v.data != w.v.data {
        var ctor := ctors[v.v.tag];
        EqSymmetric(m, ctor, ValueAt(m, ctor, v.v.data), ValueAt(m, ctor, w.v.data));
      }
    case StructTy(members) =>
      forall i | 0 <= i < |members| ensures EqVal(m, members[i].ty, w.fs[i], v.fs[i]) {
        EqSymmetric(m, members[i].ty, v.fs[i], w.fs[i]);
      }
    case PtrTy(pointed) =>
      if v.w != 0 && w.w != 0 {
        EqSymmetric(m, pointed, ValueAt(m, pointed, v.w), ValueAt(m, pointed, w.w));
      }
    case _ =>
  }

  lemma {:induction false} EqTransitive(m: Heap, ty: Ty, u: Val, v: Val, w: Val)
    requires EqVal(m, ty, u, v) && EqVal(m, ty, v, w)
    ensures EqVal(m, ty, u, w)
    decreases ty
  {
    match ty
    case SeqTy(elem, size) =>
      if u.s.data != v.s.data && v.s.data != w.s.data {
        forall i | 0 <= i < u.s.len ensures Eq(m, elem, At(u.s.data, i, size), At(w.s.data, i, size)) {
          var a, b, c := At(u.s.data, i, size), At(v.s.data, i, size), At(w.s.data, i, size);
          assert Eq(m, elem, a, b) && Eq(m, elem, b, c);
          EqTransitive(m, elem, ValueAt(m, elem, a), ValueAt(m, elem, b), ValueAt(m, elem, c));
        }
      }
    case VariantTy(ctors) =>
      if u.v.data != v.v.data && v.v.data != w.v.data {
        var ctor := ctors[u.v.tag];
        EqTransitive(m, ctor, ValueAt(m, ctor, u.v.data), ValueAt(m, ctor, v.v.data), ValueAt(m, ctor, w.v.data));
      }
    case StructTy(members) =>
      forall i | 0 <= i < |members| ensures EqVal(m, members[i].ty, u.fs[i], w.fs[i]) {
        EqTransitive(m, members[i].ty, u.fs[i], v.fs[i], w.fs[i]);
      }
    case PtrTy(pointed) =>
      if u.w != 0 && v.w != 0 && w.w != 0 {
        EqTransitive(m, pointed, ValueAt(m, pointed, u.w), ValueAt(m, pointed, v.w), ValueAt(m, pointed, w.w));
      }
    case _ =>
  }

  // --------------------------------------------------------------- equal values hash alike

  lemma {:induction false} EqHash(m: Heap, ty: Ty, h: nat, v: Val, w: Val)
    requires HeapOk(m) && Good(m, ty, v) && Good(m, ty, w) && EqVal(m, ty, v, w)
    ensures HashVal(m, ty, h, v) == HashVal(m, ty, h, w)
    decreases ty, 1, 0
  {
    match ty
    case SeqTy(elem, size) =>
      if v.s.data != w.s.data {
        ElemsHash(m, elem, size, HashWord(h, v.s.len), v.s.data, w.s.data, v.s.len);
      }
    case VariantTy(ctors) =>
      if v.v.data != w.v.data {
        AtHash(m, ctors[v.v.tag], HashWord(h, TagWord(v.v.tag)), v.v.data, w.v.data);
      }
    case StructTy(members) =>
      MembersHash(m, ty, h, v, w, |members|);
    case PtrTy(pointed) =>
      if v.w != 0 && w.w != 0 {
        AtHash(m, pointed, h, v.w, w.w);
      }
    case StringTy =>
      if v != w {
        StringOkRepresents(m.text, v.w);
        StringOkRepresents(m.text, w.w);
        var bs, cs :| Represents(m.text, v.w, bs) && Represents(m.text, w.w, cs);
        StringEqualBytes(m.text, v.w, w.w, bs, cs);
      }
    case _ =>
  }

  /** The same for the values at two addresses. */
  lemma {:induction false} AtHash(m: Heap, ty: Ty, h: nat, p: Addr, q: Addr)
    requires HeapOk(m) && Eq(m, ty, p, q)
    ensures Hash(m, ty, h, p) == Hash(m, ty, h, q)
    decreases ty, 2, 0
  {
    GoodAt(m, ty, p);
    GoodAt(m, ty, q);
    EqHash(m, ty, h, ValueAt(m, ty, p), ValueAt(m, ty, q));
  }

  lemma {:induction false} ElemsHash(m: Heap, elem: Ty, size: nat, h: nat, d: Addr, e: Addr, n: nat)
    requires HeapOk(m) && ElemsEq(m, elem, size, d, e, n)
    ensures HashElems(m, elem, size, h, d, n) == HashElems(m, elem, size, h, e, n)
    decreases elem, 3, n
  {
    if n > 0 {
      ElemsHash(m, elem, size, h, d, e, n - 1);
      AtHash(m, elem, HashElems(m, elem, size, h, d, n - 1), At(d, n - 1, size), At(e, n - 1, size));
    }
  }

  lemma {:induction false} MembersHash(m: Heap, ty: Ty, h: nat, v: Val, w: Val, n: nat)
    requires HeapOk(m) && ty.StructTy? && n <= |ty.members|
    requires Good(m, ty, v) && Good(m, ty, w) && EqVal(m, ty, v, w)
    ensures HashMembers(m, ty, h, v, n) == HashMembers(m, ty, h, w, n)
    decreases ty, 0, n
  {
    if n > 0 {
      MembersHash(m, ty, h, v, w, n - 1);
      EqHash(m, ty.members[n - 1].ty, HashMembers(m, ty, h, v, n - 1), v.fs[n - 1], w.fs[n - 1]);
    }
  }

  // ------------------------------------------------------------------------ keys of maps

  /** The hasher of a type, as a map takes it: over the key values the map copies
      and tests for zero.  Values that are not of the type are told apart. */
  function HasherOf(m: Heap, ty: Ty, seed: nat): HashMap.Hasher<Val> {
    HashMap.Hasher(
      (v, w) => if Good(m, ty, v) && Good(m, ty, w) then EqVal(m, ty, v, w) else v == w,
      v => if Shaped(ty, v) then HashVal(m, ty, seed, v) else 0,
      Zero(ty))
  }

  /** The hasher of every type is fit for a map... */
  lemma HasherLawful(m: Heap, ty: Ty, seed: nat)
    requires HeapOk(m)
    ensures HashMap.Lawful(HasherOf(m, ty, seed))
  {
    var hp := HasherOf(m, ty, seed);
    forall a ensures hp.eq(a, a) {
      if Good(m, ty, a) {
        EqReflexive(m, ty, a);
      }
    }
    forall a, b | hp.eq(a, b) ensures hp.eq(b, a) && hp.hash(a) == hp.hash(b) {
      if Good(m, ty, a) && Good(m, ty, b) {
        EqSymmetric(m, ty, a, b);
        EqHash(m, ty, seed, a, b);
      }
    }
    forall a, b, c | hp.eq(a, b) && hp.eq(b, c) ensures hp.eq(a, c) {
      if Good(m, ty, a) && Good(m, ty, b) && Good(m, ty, c) {
        EqTransitive(m, ty, a, b, c);
      }
    }
  }

  /** ... and decides, on the copied keys, what the equality and the hash function
      of the type decide at the addresses they were copied from. */
  lemma HasherAt(m: Heap, ty: Ty, seed: nat, p: Addr, q: Addr)
    requires HeapOk(m)
    ensures var hp := HasherOf(m, ty, seed);
            && hp.eq(ValueAt(m, ty, p), ValueAt(m, ty, q)) == Eq(m, ty, p, q)
            && hp.hash(ValueAt(m, ty, p)) == Hash(m, ty, seed, p)
  {
    GoodAt(m, ty, p);
    GoodAt(m, ty, q);
  }

  // ------------------------------------------------------------------ the loops themselves

  method IsEqual(m: Heap, ty: Ty, p: Addr, q: Addr) returns (eq: bool)
    ensures eq == Eq(m, ty, p, q)
    ensures eq <==> ContentAt(m, ty, p) == ContentAt(m, ty, q)
    decreases ty, 1
  {
    EqAtMeans(m, ty, p, q);
    match ty
    case IntTy => return m.word(p) == m.word(q);
    case SharedTy => return m.ptr(p) == m.ptr(q);
    case AbstractTy => return p == q;
    case SeqTy(elem, size) =>
      var s, t := m.sequence(p), m.sequence(q);
      if s.len != t.len {
        return false;
      }
      if s.data == t.data {
        return true;
      }
      eq := AreElemsEqual(m, elem, size, s.data, t.data, s.len);
    case VariantTy(ctors) =>
      var s, t := m.variant(p), m.variant(q);
      if s.tag != t.tag {
        return false;
      }
      if s.data == t.data {
        return true;
      }
      if !(0 <= s.tag < |ctors|) {
        return false;
      }
      eq := IsEqual(m, ctors[s.tag], s.data, t.data);
    case StructTy(members) =>
      eq := AreMembersEqual(m, ty, p, q);
    case PtrTy(pointed) =>
      var u, v := m.ptr(p), m.ptr(q);
      if u != 0 && v != 0 {
        eq := IsEqual(m, pointed, u, v);
      } else {
        eq := u == v;
      }
    case StringTy => return StringEq(m.text, m.str(p), m.str(q));
  }

  method AreElemsEqual(m: Heap, elem: Ty, size: nat, d: Addr, e: Addr, n: nat) returns (eq: bool)
    ensures eq == ElemsEq(m, elem, size, d, e, n)
    decreases elem, 2
  {
    for i := 0 to n
      invariant ElemsEq(m, elem, size, d, e, i)
    {
      eq := IsEqual(m, elem, At(d, i, size), At(e, i, size));
      if !eq {
        return false;
      }
    }
    eq := true;
  }

  method AreMembersEqual(m: Heap, ty: Ty, p: Addr, q: Addr) returns (eq: bool)
    requires ty.StructTy?
    ensures eq == Eq(m, ty, p, q)
    decreases ty, 0
  {
    ghost var v, w := ValueAt(m, ty, p), ValueAt(m, ty, q);
    for i := 0 to |ty.members|
      invariant forall k :: 0 <= k < i ==> EqVal(m, ty.members[k].ty, v.fs[k], w.fs[k])
    {
      eq := IsEqual(m, ty.members[i].ty, p + ty.members[i].offset, q + ty.members[i].offset);
      assert v.fs[i] == MemberAt(m, ty.members[i], p) && w.fs[i] == MemberAt(m, ty.members[i], q);
      if !eq {
        return false;
      }
    }
    eq := true;
  }

  method HashValue(m: Heap, ty: Ty, seed: nat, p: Addr) returns (h: nat)
    ensures h == Hash(m, ty, seed, p)
    ensures HeapOk(m) ==> h == Replay(seed, Marks(ContentAt(m, ty, p)))
    decreases ty
  {
    h := seed;
    ShapedAt(m, ty, p);
    if HeapOk(m) {
      HashAtMeans(m, ty, seed, p);
    }
    match ty
    case IntTy => h := HashWord(h, m.word(p));
    case SharedTy => h := HashWord(h, m.ptr(p));
    case AbstractTy => h := HashWord(h, p);
    case SeqTy(elem, size) =>
      var s := m.sequence(p);
      h := HashWord(h, s.len);
      for i := 0 to s.len
        invariant h == HashElems(m, elem, size, HashWord(seed, s.len), s.data, i)
      {
        h := HashValue(m, elem, h, At(s.data, i, size));
      }
    case VariantTy(ctors) =>
      var v := m.variant(p);
      h := HashWord(h, TagWord(v.tag));
      if v.data == 0 || !(0 <= v.tag < |ctors|) {
        h := Complement(h);
      } else {
        h := HashValue(m, ctors[v.tag], h, v.data);
      }
    case StructTy(members) =>
      ghost var v := ValueAt(m, ty, p);
      for i := 0 to |members|
        invariant h == HashMembers(m, ty, seed, v, i)
      {
        assert v.fs[i] == MemberAt(m, members[i], p);
        h := HashValue(m, members[i].ty, h, p + members[i].offset);
      }
    case PtrTy(pointed) =>
      var v := m.ptr(p);
      if v != 0 {
        h := HashValue(m, pointed, h, v);
      } else {
        h := Complement(h);
      }
    case StringTy => h := StringHash(m.text, m.str(p));
  }
}
