/**
 Buffered input through a stack of layers (`gu/in.c`, `gu/in.h`).  Layer 0 has
 the data; every other layer is a proxy, which shares the buffer of the layer
 below, or refills a buffer of its own from it.
 */
module InStream {
  import opened Wrappers

  /** Data in memory, a source without a buffer, or a layer on another one. */
  datatype Kind = Data | Raw | Proxy | Buffered(alloc: nat)

  /** `held` is what the stream itself still has: the data behind the position,
      or `buf[curr..have]`.  `window` is the current buffer (empty when there is
      none), `used` the part of it that has been read, `pos` the bytes read
      before it. */
  datatype Layer = Layer(kind: Kind, held: seq<Byte>, window: seq<Byte>, used: nat, pos: nat)

  /** `stream_pos + buf_size + buf_curr` */
  function Tell(l: Layer): nat {
    l.pos + l.used
  }

  /** The unread part of the current buffer. */
  function Ahead(l: Layer): seq<Byte> {
    if l.used <= |l.window| then l.window[l.used..] else []
  }

  /** The bytes below the stack, and where in them each layer began. */
  datatype Text = Text(data: seq<Byte>, bases: seq<nat>)

  /** `xs` stands in `data` from position `at` on. */
  ghost predicate Stands(data: seq<Byte>, at: nat, xs: seq<Byte>) {
    at + |xs| <= |data| && xs == data[at..at + |xs|]
  }

  lemma StandsPart(data: seq<Byte>, at: nat, xs: seq<Byte>, a: nat, b: nat)
    requires Stands(data, at, xs) && a <= b <= |xs|
    ensures Stands(data, at + a, xs[a..b])
  {
    forall i | 0 <= i < b - a ensures xs[a..b][i] == data[at + a..at + b][i] {
      assert xs[a + i] == data[at + a + i];
    }
  }

  lemma StandsBehind(data: seq<Byte>, at: nat, xs: seq<Byte>, a: nat)
    requires Stands(data, at, xs) && a <= |xs|
    ensures Stands(data, at + a, xs[a..])
  {}

  lemma StandsJoined(data: seq<Byte>, at: nat, xs: seq<Byte>, ys: seq<Byte>)
    requires Stands(data, at, xs) && Stands(data, at + |xs|, ys)
    ensures Stands(data, at, xs + ys)
  {}

  ghost predicate LayerOk(layers: seq<Layer>, text: Text, k: nat)
    requires k < |layers| == |text.bases|
  {
    var l := layers[k];
    var start := text.bases[k] + l.pos;
    && l.used <= |l.window| && Stands(text.data, start, l.window)
    && match l.kind
       case Data =>
         k == 0 && Stands(text.data, start, l.held) && start + |l.held| == |text.data|
         && (l.window != [] ==> |l.window| == |l.held|)
       case Raw =>
         k == 0 && Stands(text.data, start, l.held) && start + |l.held| == |text.data| && l.window == []
       case Proxy =>
         k > 0 && start == text.bases[k - 1] + Tell(layers[k - 1])
         && (l.window != [] ==> |l.window| == |Ahead(layers[k - 1])|)
       case Buffered(alloc) =>
         k > 0 && alloc > 0 && Stands(text.data, start, l.held)
         && start + |l.held| == text.bases[k - 1] + Tell(layers[k - 1])
         && (l.window != [] ==> |l.window| == |l.held|)
  }

  ghost predicate OkUpTo(layers: seq<Layer>, text: Text, k: int)
    requires k < |layers| == |text.bases|
  {
    forall j :: 0 <= j <= k ==> LayerOk(layers, text, j)
  }

  /** The unread part of the buffer is what comes next. */
  lemma AheadStands(layers: seq<Layer>, text: Text, k: nat)
    requires k < |layers| == |text.bases| && OkUpTo(layers, text, k)
    ensures Stands(text.data, text.bases[k] + Tell(layers[k]), Ahead(layers[k]))
  {
    assert LayerOk(layers, text, k);
    StandsBehind(text.data, text.bases[k] + layers[k].pos, layers[k].window, layers[k].used);
  }

  lemma RawMoved(layers: seq<Layer>, text: Text, k: nat, n: nat)
    requires k < |layers| == |text.bases| && LayerOk(layers, text, k) && layers[k].kind.Raw? && n <= |layers[k].held|
    ensures var l := layers[k];
            && Stands(text.data, text.bases[k] + l.pos, l.held[..n])
            && LayerOk(layers[k := l.(held := l.held[n..], pos := l.pos + n)], text, k)
  {}

  /** Nothing of the stream's own is left: its `input` may be called. */
  predicate UsedUp(l: Layer) {
    (l.kind.Data? || l.kind.Buffered?) ==> l.used == |l.held|
  }

  /** Nothing above layer `k` has changed, and no layer its kind. */
  ghost predicate SameAbove(before: seq<Layer>, after: seq<Layer>, k: int) {
    && |after| == |before|
    && (forall j :: 0 <= j < |after| ==> after[j].kind == before[j].kind)
    && (forall j :: 0 <= j < |after| && j > k ==> after[j] == before[j])
  }

  class InStack {
    var layers: seq<Layer>
    ghost const text: Text

    ghost predicate Ok(k: nat)
      reads this
    {
      k < |layers| == |text.bases| && OkUpTo(layers, text, k)
    }

    /** Where in the data layer `k` is. */
    ghost function At(k: nat): nat
      requires k < |layers| == |text.bases|
      reads this
    {
      text.bases[k] + Tell(layers[k])
    }

    /** Layer `k` has moved from a position by exactly the bytes it delivered. */
    ghost predicate Delivered(k: nat, before: nat, got: seq<Byte>)
      requires k < |layers| == |text.bases|
      reads this
    {
      At(k) == before + |got| && Stands(text.data, before, got)
    }

    /** A fresh stack over `data`. */
    constructor (data: seq<Byte>, bottom: Kind, upper: seq<Kind>)
      requires bottom.Data? || bottom.Raw?
      requires forall i :: 0 <= i < |upper| ==> upper[i].Proxy? || (upper[i].Buffered? && upper[i].alloc > 0)
      ensures |layers| == |upper| + 1 && Ok(|upper|) && text.data == data
      ensures forall k :: 0 <= k < |layers| ==> Tell(layers[k]) == 0 && text.bases[k] == 0
    {
      layers := [Layer(bottom, data, [], 0, 0)] + seq(|upper|, i requires 0 <= i < |upper| => Layer(upper[i], [], [], 0, 0));
      text := Text(data, seq(|upper| + 1, k => 0));
    }

    /** Replaces layer `k`; lower layers are not affected. */
    method SetLayer(k: nat, l: Layer)
      requires k < |layers| == |text.bases| && OkUpTo(layers, text, k - 1)
      requires l.kind == layers[k].kind && LayerOk(layers[k := l], text, k)
      modifies this
      ensures layers == old(layers)[k := l] && Ok(k) && SameAbove(old(layers), layers, k)
    {
      layers := layers[k := l];
      forall j | 0 <= j < k ensures LayerOk(layers, text, j) {
        assert LayerOk(old(layers), text, j);
      }
    }

    /** Tells the stream how much of its buffer has been read and gives the
        buffer up. */
    method EndBuffering(k: nat)
      requires Ok(k)
      modifies this
      ensures Ok(k) && SameAbove(old(layers), layers, k)
      ensures Tell(layers[k]) == Tell(old(layers)[k]) && layers[k].window == []
      ensures UsedUp(old(layers)[k]) ==> UsedUp(layers[k])
      decreases k, 1
    {
      var l := layers[k];
      assert LayerOk(layers, text, k);
      if l.window == [] {
        return;
      }
      var held := l.held;
      if l.kind.Proxy? {
        EndSpan(k - 1, l.used);
      } else {
        StandsPart(text.data, text.bases[k] + l.pos, held, l.used, |held|);
        held := held[l.used..];
      }
      SetLayer(k, l.(held := held, window := [], used := 0, pos := l.pos + l.used));
    }

    /** Makes sure there are bytes in the buffer, if the stream has a buffer and
        any bytes for it. */
    method BeginBuffering(k: nat) returns (ok: bool)
      requires Ok(k)
      modifies this
      ensures Ok(k) && SameAbove(old(layers), layers, k)
      ensures Tell(layers[k]) == Tell(old(layers)[k])
      ensures ok ==> Ahead(layers[k]) != []
      ensures !ok ==> layers[k].window == [] && UsedUp(layers[k])
      decreases k, 4
    {
      assert LayerOk(layers, text, k);
      if layers[k].used < |layers[k].window| {
        return true;
      }
      EndBuffering(k);
      ok := BeginStream(k);
    }

    method BeginStream(k: nat) returns (ok: bool)
      requires Ok(k) && layers[k].window == []
      modifies this
      ensures Ok(k) && SameAbove(old(layers), layers, k)
      ensures Tell(layers[k]) == Tell(old(layers)[k])
      ensures ok ==> Ahead(layers[k]) != []
      ensures !ok ==> layers[k].window == [] && UsedUp(layers[k])
      decreases k, 3
    {
      var l := layers[k];
      assert LayerOk(layers, text, k);
      match l.kind {
        case Data =>
          SetLayer(k, l.(window := l.held));
        case Raw =>
        case Proxy =>
          var _, bytes := BeginSpan(k - 1, 0);
          SetLayer(k, l.(window := bytes));
        case Buffered(_) =>
          BeginBuffered(k);
      }
      ok := layers[k].window != [];
    }

    /** Refills the layer's own buffer once it is used up. */
    method BeginBuffered(k: nat)
      requires Ok(k) && layers[k].window == [] && layers[k].kind.Buffered?
      modifies this
      ensures Ok(k) && SameAbove(old(layers), layers, k)
      ensures Tell(layers[k]) == Tell(old(layers)[k]) && layers[k].window == layers[k].held
      ensures layers[k].used == 0
      decreases k, 2
    {
      var l := layers[k];
      assert LayerOk(layers, text, k);
      var held := l.held;
      if held == [] {
        held := Some(k - 1, l.kind.alloc, 1);
      }
      SetLayer(k, l.(held := held, window := held));
    }

    /** Straight from the stream, past the buffer, which must be used up. */
    method Input(k: nat, size: nat) returns (got: seq<Byte>)
      requires Ok(k) && UsedUp(layers[k])
      modifies this
      ensures Ok(k) && SameAbove(old(layers), layers, k) && UsedUp(layers[k])
      ensures Delivered(k, old(At(k)), got) && |got| <= size
      ensures size > 0 && got == [] ==> At(k) == |text.data|
      ensures size > 0 || old(layers)[k].window == [] ==> layers[k].window == []
      decreases k, 3
    {
      assert LayerOk(layers, text, k);
      if size == 0 {
        return [];
      }
      EndBuffering(k);
      got := StreamInput(k, size);
    }

    method StreamInput(k: nat, size: nat) returns (got: seq<Byte>)
      requires Ok(k) && UsedUp(layers[k]) && layers[k].window == [] && size > 0
      modifies this
      ensures Ok(k) && SameAbove(old(layers), layers, k) && UsedUp(layers[k]) && layers[k].window == []
      ensures Delivered(k, old(At(k)), got) && |got| <= size
      ensures got == [] ==> At(k) == |text.data|
      decreases k, 2
    {
      assert LayerOk(layers, text, k);
      match layers[k].kind {
        case Data =>
          got := [];
        case Raw =>
          got := InputRaw(k, size);
        case _ =>
          got := InputBelow(k, size);
      }
    }

    method InputRaw(k: nat, size: nat) returns (got: seq<Byte>)
      requires Ok(k) && layers[k].kind.Raw? && size > 0
      modifies this
      ensures Ok(k) && SameAbove(old(layers), layers, k) && layers[k].window == []
      ensures Delivered(k, old(At(k)), got) && |got| <= size
      ensures got == [] ==> At(k) == |text.data|
    {
      var l := layers[k];
      assert LayerOk(layers, text, k);
      var n := Piece(size, |l.held|);
      got := l.held[..n];
      RawMoved(layers, text, k, n);
      SetLayer(k, l.(held := l.held[n..], pos := l.pos + n));
    }

    method InputBelow(k: nat, size: nat) returns (got: seq<Byte>)
      requires Ok(k) && k > 0 && UsedUp(layers[k]) && layers[k].window == [] && size > 0
      modifies this
      ensures Ok(k) && SameAbove(old(layers), layers, k) && UsedUp(layers[k]) && layers[k].window == []
      ensures Delivered(k, old(At(k)), got) && |got| <= size
      ensures got == [] ==> At(k) == |text.data|
      decreases k, 1
    {
      var l := layers[k];
      assert LayerOk(layers, text, k);
      got := Some(k - 1, size, 1);
      SetLayer(k, l.(pos := l.pos + |got|));
    }

    /** How much a source hands out at once is up to the source. */
    method Piece(size: nat, left: nat) returns (n: nat)
      requires size > 0
      ensures n <= size && n <= left && (n == 0 ==> left == 0)
    {
      if left == 0 {
        return 0;
      }
      n :| 1 <= n <= size && n <= left;
    }

    /** At least `min` bytes unless the input ends first, at most `size`. */
    method Some(k: nat, size: nat, min: nat) returns (got: seq<Byte>)
      requires Ok(k) && min <= size
      modifies this
      ensures Ok(k) && SameAbove(old(layers), layers, k)
      ensures Delivered(k, old(At(k)), got) && |got| <= size
      ensures |got| < min ==> At(k) == |text.data|
      decreases k, 5
    {
      got := [];
      assert LayerOk(layers, text, k);
      var ok := BeginBuffering(k);
      if ok {
        got := Take(k, size);
      }
      while |got| < min
        invariant Ok(k) && SameAbove(old(layers), layers, k)
        invariant Delivered(k, old(At(k)), got) && |got| <= size
        invariant |got| < min ==> UsedUp(layers[k])
        decreases min - |got|
      {
        var more := Input(k, size - |got|);
        if more == [] {
          break;
        }
        StandsJoined(text.data, old(At(k)), got, more);
        got := got + more;
      }
    }

    /** Up to `size` bytes from the buffer. */
    method Take(k: nat, size: nat) returns (got: seq<Byte>)
      requires Ok(k)
      modifies this
      ensures Ok(k) && SameAbove(old(layers), layers, k)
      ensures Delivered(k, old(At(k)), got)
      ensures |got| == if size < |Ahead(old(layers)[k])| then size else |Ahead(old(layers)[k])|
      ensures old(layers)[k].window != [] && |got| < size ==> UsedUp(layers[k])
    {
      var l := layers[k];
      assert LayerOk(layers, text, k);
      var n := if size < |l.window| - l.used then size else |l.window| - l.used;
      got := l.window[l.used..l.used + n];
      StandsPart(text.data, text.bases[k] + l.pos, l.window, l.used, l.used + n);
      SetLayer(k, l.(used := l.used + n));
    }

    /** Bytes to look at: the stream's own buffer, or else up to `req` bytes
        read into the caller's. */
    method BeginSpan(k: nat, req: nat) returns (stream: bool, bytes: seq<Byte>)
      requires Ok(k)
      modifies this
      ensures Ok(k) && SameAbove(old(layers), layers, k)
      ensures Stands(text.data, old(At(k)), bytes)
      ensures stream ==> bytes == Ahead(layers[k]) != [] && At(k) == old(At(k))
      ensures !stream ==> |bytes| <= req && layers[k].window == [] && At(k) == old(At(k)) + |bytes|
      decreases k, 5
    {
      stream := BeginBuffering(k);
      if stream {
        AheadStands(layers, text, k);
        bytes := Ahead(layers[k]);
      } else {
        bytes := Input(k, req);
      }
    }

    /** The caller has used `consumed` bytes of the span; bytes in the caller's
        own memory have been read already. */
    method EndSpan(k: nat, consumed: nat)
      requires Ok(k) && (layers[k].window != [] ==> consumed <= |Ahead(layers[k])|)
      modifies this
      ensures Ok(k) && SameAbove(old(layers), layers, k)
      ensures At(k) == old(At(k)) + if old(layers)[k].window != [] then consumed else 0
    {
      var l := layers[k];
      assert LayerOk(layers, text, k);
      if l.window != [] {
        SetLayer(k, l.(used := l.used + consumed));
      }
    }

    /** Exactly `n` bytes, or an end-of-file error. */
    method Bytes(k: nat, n: nat) returns (ok: bool, got: seq<Byte>)
      requires Ok(k)
      modifies this
      ensures Ok(k) && SameAbove(old(layers), layers, k)
      ensures Delivered(k, old(At(k)), got)
      ensures if ok then |got| == n else |got| < n && At(k) == |text.data|
    {
      assert LayerOk(layers, text, k);
      if layers[k].used + n <= |layers[k].window| {
        got := Take(k, n);
        return true, got;
      }
      got := Some(k, n, n);
      ok := |got| == n;
    }

    /** One byte, or an end-of-file error. */
    method U8(k: nat) returns (b: Option<Byte>)
      requires Ok(k)
      modifies this
      ensures Ok(k) && SameAbove(old(layers), layers, k)
      ensures b == None ==> At(k) == old(At(k)) == |text.data|
      ensures b.Some? ==> Delivered(k, old(At(k)), [b.value])
    {
      var ok := BeginBuffering(k);
      var got;
      if ok {
        got := Take(k, 1);
      } else {
        got := Input(k, 1);
      }
      if got == [] {
        return None;
      }
      assert got == [got[0]];
      b := Option.Some(got[0]);
    }

    /** The next byte, if the buffer has one; nothing moves. */
    method Peek(k: nat) returns (b: Option<Byte>)
      requires Ok(k)
      ensures b.Some? <==> Ahead(layers[k]) != []
      ensures b.Some? ==> At(k) < |text.data| && b.value == text.data[At(k)]
    {
      var l := layers[k];
      assert LayerOk(layers, text, k);
      b := if l.used == |l.window| then None else Option.Some(l.window[l.used]);
    }

    // ------------------------------------------------------------------------- clients

    /** One operation at layer `k`. */
    method Perform(k: nat, op: Op) returns (got: seq<Byte>)
      requires Ok(k)
      modifies this
      ensures Ok(k) && SameAbove(old(layers), layers, k)
      ensures Delivered(k, old(At(k)), got)
    {
      assert LayerOk(layers, text, k);
      match op {
        case One =>
          var b := U8(k);
          got := if b.Some? then [b.value] else [];
        case Many(n) =>
          var _, bytes := Bytes(k, n);
          got := bytes;
        case Upto(size) =>
          got := Some(k, size, if size == 0 then 0 else 1);
        case Span(req, want) =>
          var stream, bytes := BeginSpan(k, req);
          var n := if stream && want < |bytes| then want else |bytes|;
          got := bytes[..n];
          StandsPart(text.data, old(At(k)), bytes, 0, n);
          EndSpan(k, n);
      }
    }

    /** Any mix of operations at one layer: together they deliver the bytes
        between the two positions, each once and in order. */
    method ReadMixed(k: nat, ops: seq<Op>) returns (out: seq<Byte>)
      requires Ok(k)
      modifies this
      ensures Ok(k) && SameAbove(old(layers), layers, k)
      ensures Delivered(k, old(At(k)), out)
    {
      assert LayerOk(layers, text, k);
      out := [];
      for i := 0 to |ops|
        invariant Ok(k) && SameAbove(old(layers), layers, k)
        invariant Delivered(k, old(At(k)), out)
      {
        var got := Perform(k, ops[i]);
        StandsJoined(text.data, old(At(k)), out, got);
        out := out + got;
      }
    }

    /** Reading on to the end delivers all the rest. */
    method ReadToEnd(k: nat, chunk: nat) returns (out: seq<Byte>)
      requires Ok(k) && chunk > 0
      modifies this
      ensures Ok(k) && SameAbove(old(layers), layers, k)
      ensures Delivered(k, old(At(k)), out) && At(k) == |text.data|
    {
      assert LayerOk(layers, text, k);
      out := [];
      while true
        invariant Ok(k) && SameAbove(old(layers), layers, k)
        invariant Delivered(k, old(At(k)), out)
        decreases |text.data| - At(k)
      {
        var got := Some(k, chunk, 1);
        if got == [] {
          break;
        }
        StandsJoined(text.data, old(At(k)), out, got);
        out := out + got;
      }
    }
  }

  datatype Op = One | Many(n: nat) | Upto(size: nat) | Span(req: nat, want: nat)

  /** A whole text read through a fresh stack, first by any operations and then
      to the end: nothing is lost, repeated or moved, and the position told in
      between is the number of bytes read so far. */
  method ReadThrough(data: seq<Byte>, bottom: Kind, upper: seq<Kind>, ops: seq<Op>, chunk: nat)
      returns (first: seq<Byte>, told: nat, rest: seq<Byte>)
    requires bottom.Data? || bottom.Raw?
    requires forall i :: 0 <= i < |upper| ==> upper[i].Proxy? || (upper[i].Buffered? && upper[i].alloc > 0)
    requires chunk > 0
    ensures first + rest == data && told == |first|
  {
    var stack := new InStack(data, bottom, upper);
    first := stack.ReadMixed(|upper|, ops);
    told := Tell(stack.layers[|upper|]);
    rest := stack.ReadToEnd(|upper|, chunk);
    StandsJoined(data, 0, first, rest);
  }
}
