/**
 Buffered output through a stack of layers (`gu/out.c`, `gu/out.h`).  Layer 0
 writes to the sink; every other layer is a proxy, which writes into the free
 space of the buffer below, or has a buffer of its own.
 */
module OutStream {
  import opened Wrappers

  datatype Kind = Sink(canBuffer: bool) | Proxy | Buffered(capacity: nat)

  /** `size` is the length of the current buffer, `pend` what has been written
      to it; `spanAt` is where in the buffer below a proxy's buffer begins. */
  datatype Layer = Layer(kind: Kind, buffering: bool, size: nat, pend: seq<Byte>, spanAt: nat)

  function Free(l: Layer): int {
    l.size - |l.pend|
  }

  ghost predicate LayerOk(layers: seq<Layer>, k: nat)
    requires k < |layers|
  {
    var l := layers[k];
    && (l.buffering ==> 0 < l.size && |l.pend| <= l.size)
    && (!l.buffering ==> l.size == 0 && l.pend == [])
    && (l.kind.Sink? <==> k == 0)
    && (l.kind.Buffered? ==> l.kind.capacity > 0)
    && (l.kind.Proxy? && l.buffering ==>
          layers[k - 1].buffering && l.spanAt == |layers[k - 1].pend| && l.size == Free(layers[k - 1]))
  }

  ghost predicate OkUpTo(layers: seq<Layer>, k: int)
    requires k < |layers|
  {
    forall j :: 0 <= j <= k ==> LayerOk(layers, j)
  }

  /** All bytes written to layer `k` so far: what the sink has, then what is
      pending in each layer from the bottom up. */
  ghost function All(sink: seq<Byte>, layers: seq<Layer>, k: int): seq<Byte>
    requires -1 <= k < |layers|
    decreases k + 1
  {
    if k == -1 then sink else All(sink, layers, k - 1) + layers[k].pend
  }

  lemma {:induction false} AllFrame(sink: seq<Byte>, layers: seq<Layer>, layers': seq<Layer>, k: int)
    requires -1 <= k < |layers| == |layers'| && forall j :: 0 <= j <= k ==> layers'[j] == layers[j]
    ensures All(sink, layers', k) == All(sink, layers, k)
    decreases k + 1
  {
    if k >= 0 {
      AllFrame(sink, layers, layers', k - 1);
    }
  }

  lemma {:induction false} NothingPending(sink: seq<Byte>, layers: seq<Layer>, k: int)
    requires -1 <= k < |layers| && forall j :: 0 <= j <= k ==> layers[j].pend == []
    ensures All(sink, layers, k) == sink
    decreases k + 1
  {
    if k >= 0 {
      NothingPending(sink, layers, k - 1);
    }
  }

  /** Nothing above layer `k` has changed, and no layer its kind. */
  ghost predicate SameAbove(before: seq<Layer>, after: seq<Layer>, k: int) {
    && |after| == |before|
    && (forall j :: 0 <= j < |after| ==> after[j].kind == before[j].kind)
    && (forall j :: 0 <= j < |after| && j > k ==> after[j] == before[j])
  }

  class OutStack {
    var layers: seq<Layer>
    var sink: seq<Byte>

    /** A fresh stack over an empty sink. */
    constructor (canBuffer: bool, upper: seq<Kind>)
      requires forall i :: 0 <= i < |upper| ==> upper[i].Proxy? || (upper[i].Buffered? && upper[i].capacity > 0)
      ensures |layers| == |upper| + 1 && OkUpTo(layers, |upper|)
      ensures sink == [] && forall k :: 0 <= k < |layers| ==> !layers[k].buffering
      ensures All(sink, layers, |upper|) == []
    {
      sink := [];
      layers := [Layer(Sink(canBuffer), false, 0, [], 0)]
              + seq(|upper|, i requires 0 <= i < |upper| => Layer(upper[i], false, 0, [], 0));
      new;
      NothingPending(sink, layers, |upper|);
    }

    /** Replaces layer `k`; lower layers are not affected. */
    method SetLayer(k: nat, l: Layer)
      requires k < |layers| && OkUpTo(layers, k - 1) && l.kind == layers[k].kind && LayerOk(layers[k := l], k)
      modifies this`layers
      ensures layers == old(layers)[k := l] && OkUpTo(layers, k) && SameAbove(old(layers), layers, k)
      ensures All(sink, layers, k) == All(sink, old(layers), k - 1) + l.pend
    {
      AllFrame(sink, layers, layers[k := l], k - 1);
      layers := layers[k := l];
      forall j | 0 <= j < k ensures LayerOk(layers, j) {
        assert LayerOk(old(layers), j);
      }
    }

    /** Hands the pending bytes of a layer down and gives its buffer up. */
    method EndBuf(k: nat)
      requires k < |layers| && OkUpTo(layers, k)
      modifies this
      ensures k < |layers| && OkUpTo(layers, k) && SameAbove(old(layers), layers, k)
      ensures All(sink, layers, k) == old(All(sink, layers, k)) && !layers[k].buffering
      decreases k, 1
    {
      var l := layers[k];
      assert LayerOk(layers, k);
      if !l.buffering {
        return;
      }
      match l.kind {
        case Sink(_) =>
          sink := sink + l.pend;
        case Proxy =>
          EndSpan(k - 1, true, l.spanAt, l.pend);
        case Buffered(_) =>
          OutBytes(k - 1, l.pend);
      }
      SetLayer(k, l.(buffering := false, size := 0, pend := []));
    }

    /** Makes sure there is buffer space, if the stream offers any. */
    method BeginBuf(k: nat, req: nat) returns (ok: bool)
      requires k < |layers| && OkUpTo(layers, k)
      modifies this
      ensures k < |layers| && OkUpTo(layers, k) && SameAbove(old(layers), layers, k)
      ensures All(sink, layers, k) == old(All(sink, layers, k))
      ensures ok ==> layers[k].buffering && Free(layers[k]) > 0
      ensures !ok ==> !layers[k].buffering
      decreases k, 2
    {
      assert LayerOk(layers, k);
      if layers[k].buffering {
        if Free(layers[k]) > 0 {
          return true;
        }
        EndBuf(k);
      }
      ok := BeginStream(k, req);
    }

    method BeginStream(k: nat, req: nat) returns (ok: bool)
      requires k < |layers| && OkUpTo(layers, k) && !layers[k].buffering
      modifies this
      ensures k < |layers| && OkUpTo(layers, k) && SameAbove(old(layers), layers, k)
      ensures All(sink, layers, k) == old(All(sink, layers, k))
      ensures ok ==> layers[k].buffering && Free(layers[k]) > 0
      ensures !ok ==> !layers[k].buffering
      decreases k, 1
    {
      var l := layers[k];
      var size, at := 0, 0;
      match l.kind {
        case Sink(canBuffer) =>
          if canBuffer {
            // whatever the sink offers
            var offered: nat :| true;
            size := offered;
          }
        case Proxy =>
          var _, n, pos := BeginSpan(k - 1, 0);
          size, at := n, pos;
        case Buffered(capacity) =>
          size := capacity;
      }
      assert layers[k] == l && LayerOk(old(layers), k);
      ok := size > 0;
      SetLayer(k, if ok then l.(buffering := true, size := size, pend := [], spanAt := at) else l);
    }

    method TryBuf(k: nat, xs: seq<Byte>) returns (ok: bool)
      requires k < |layers| && OkUpTo(layers, k)
      modifies this`layers
      ensures OkUpToNow(k) && SameAbove(old(layers), layers, k)
      ensures ok <==> |xs| <= Free(old(layers)[k])
      ensures All(sink, layers, k) == old(All(sink, layers, k)) + if ok then xs else []
      ensures !ok ==> layers == old(layers)
    {
      var l := layers[k];
      assert LayerOk(layers, k);
      if |l.pend| + |xs| > l.size {
        return false;
      }
      SetLayer(k, l.(pend := l.pend + xs));
      Regroup(All(sink, old(layers), k - 1), l.pend, xs);
      ok := true;
    }

    ghost predicate OkUpToNow(k: nat)
      reads this
    {
      k < |layers| && OkUpTo(layers, k)
    }

    method OutBytes(k: nat, xs: seq<Byte>)
      requires OkUpToNow(k)
      modifies this
      ensures OkUpToNow(k) && SameAbove(old(layers), layers, k)
      ensures All(sink, layers, k) == old(All(sink, layers, k)) + xs
      decreases k, 6
    {
      var ok := TryBuf(k, xs);
      if !ok {
        OutBytesSlow(k, xs);
      }
    }

    method OutBytesSlow(k: nat, xs: seq<Byte>)
      requires OkUpToNow(k)
      modifies this
      ensures OkUpToNow(k) && SameAbove(old(layers), layers, k)
      ensures All(sink, layers, k) == old(All(sink, layers, k)) + xs
      decreases k, 5
    {
      var done := TryBuf(k, xs);
      if done {
        return;
      }
      var ok := BeginBuf(k, |xs|);
      if ok {
        done := TryBuf(k, xs);
        if done {
          return;
        }
      }
      Output(k, xs);
    }

    /** Past the buffer: pending bytes first, then these. */
    method Output(k: nat, xs: seq<Byte>)
      requires OkUpToNow(k)
      modifies this
      ensures OkUpToNow(k) && SameAbove(old(layers), layers, k)
      ensures All(sink, layers, k) == old(All(sink, layers, k)) + xs
      decreases k, 3
    {
      EndBuf(k);
      var l := layers[k];
      assert LayerOk(layers, k);
      if l.kind.Sink? {
        sink := sink + xs;
      } else {
        OutBytes(k - 1, xs);
      }
      SetLayer(k, l);
    }

    method OutU8(k: nat, b: Byte)
      requires OkUpToNow(k)
      modifies this
      ensures OkUpToNow(k) && SameAbove(old(layers), layers, k)
      ensures All(sink, layers, k) == old(All(sink, layers, k)) + [b]
    {
      var done := TryBuf(k, [b]);
      if done {
        return;
      }
      var ok := BeginBuf(k, 1);
      if ok {
        done := TryBuf(k, [b]);
        if done {
          return;
        }
      }
      Output(k, [b]);
    }

    /** A place to write to: the stream's buffer, or else the caller's own. */
    method BeginSpan(k: nat, fallback: nat) returns (stream: bool, size: nat, at: nat)
      requires OkUpToNow(k)
      modifies this
      ensures OkUpToNow(k) && SameAbove(old(layers), layers, k)
      ensures All(sink, layers, k) == old(All(sink, layers, k))
      ensures size >= fallback
      ensures stream ==> layers[k].buffering && at == |layers[k].pend| && size == Free(layers[k])
      ensures !stream ==> size == fallback
      decreases k, 3
    {
      var ok := true;
      if !layers[k].buffering {
        ok := BeginBuf(k, fallback);
      }
      assert LayerOk(layers, k);
      if !ok || Free(layers[k]) < fallback {
        return false, fallback, 0;
      }
      return true, Free(layers[k]), |layers[k].pend|;
    }

    /** Takes over what has been written to a span. */
    method EndSpan(k: nat, stream: bool, at: nat, xs: seq<Byte>)
      requires OkUpToNow(k)
      requires stream && layers[k].buffering && at == |layers[k].pend| ==> |xs| <= Free(layers[k])
      modifies this
      ensures OkUpToNow(k) && SameAbove(old(layers), layers, k)
      ensures All(sink, layers, k) == old(All(sink, layers, k)) + xs
      decreases k, 6
    {
      if stream && layers[k].buffering && at == |layers[k].pend| {
        var _ := TryBuf(k, xs);
      } else {
        OutBytesSlow(k, xs);
      }
    }

    /** Everything down to the sink. */
    method Flush(k: nat)
      requires OkUpToNow(k)
      modifies this
      ensures OkUpToNow(k) && SameAbove(old(layers), layers, k)
      ensures sink == All(sink, layers, k) == old(All(sink, layers, k))
      decreases k
    {
      EndBuf(k);
      var l := layers[k];
      assert LayerOk(layers, k);
      if k > 0 {
        Flush(k - 1);
      }
      SetLayer(k, l);
    }

    // ------------------------------------------------------------------------- clients

    /** Writes `xs` span by span. */
    method WriteSpans(k: nat, fallback: nat, xs: seq<Byte>)
      requires OkUpToNow(k) && fallback > 0
      modifies this
      ensures OkUpToNow(k) && SameAbove(old(layers), layers, k)
      ensures All(sink, layers, k) == old(All(sink, layers, k)) + xs
    {
      var done := 0;
      while done < |xs|
        invariant done <= |xs| && OkUpToNow(k) && SameAbove(old(layers), layers, k)
        invariant All(sink, layers, k) == old(All(sink, layers, k)) + xs[..done]
      {
        var stream, size, at := BeginSpan(k, fallback);
        var n := if size < |xs| - done then size else |xs| - done;
        EndSpan(k, stream, at, xs[done..done + n]);
        assert xs[..done] + xs[done..done + n] == xs[..done + n];
        done := done + n;
      }
      assert xs[..|xs|] == xs;
    }

    /** Any mix of operations at the top layer, then a flush: the sink gets
        exactly the bytes written, in order. */
    method WriteAll(ops: seq<Op>)
      requires |layers| > 0 && OkUpTo(layers, |layers| - 1)
      requires forall i :: 0 <= i < |ops| && ops[i].Spans? ==> ops[i].fallback > 0
      modifies this
      ensures |layers| == |old(layers)| && OkUpTo(layers, |layers| - 1)
      ensures sink == old(All(sink, layers, |layers| - 1)) + Payload(ops)
    {
      var top := |layers| - 1;
      ghost var before := All(sink, layers, top);
      for i := 0 to |ops|
        invariant |layers| == |old(layers)| && OkUpToNow(top)
        invariant All(sink, layers, top) == before + Payload(ops[..i])
      {
        Perform(top, ops[i]);
        PayloadSnoc(ops, i, before);
      }
      assert ops[..|ops|] == ops;
      Flush(top);
    }

    method Perform(k: nat, op: Op)
      requires OkUpToNow(k) && (op.Spans? ==> op.fallback > 0)
      modifies this
      ensures OkUpToNow(k) && SameAbove(old(layers), layers, k)
      ensures All(sink, layers, k) == old(All(sink, layers, k)) + BytesOf(op)
    {
      match op {
        case One(b) => OutU8(k, b);
        case Many(xs) => OutBytes(k, xs);
        case Spans(fallback, xs) => WriteSpans(k, fallback, xs);
      }
    }
  }

  datatype Op = One(b: Byte) | Many(xs: seq<Byte>) | Spans(fallback: nat, bytes: seq<Byte>)

  function BytesOf(op: Op): seq<Byte> {
    match op
    case One(b) => [b]
    case Many(xs) => xs
    case Spans(_, xs) => xs
  }

  function Payload(ops: seq<Op>): seq<Byte> {
    if ops == [] then [] else Payload(ops[..|ops| - 1]) + BytesOf(ops[|ops| - 1])
  }

  lemma PayloadSnoc(ops: seq<Op>, i: nat, before: seq<Byte>)
    requires i < |ops|
    ensures before + Payload(ops[..i]) + BytesOf(ops[i]) == before + Payload(ops[..i + 1])
  {
    assert ops[..i + 1][..i] == ops[..i];
  }

  /** Bytes written through a fresh stack: the sink has them all, in order. */
  method WriteThrough(canBuffer: bool, upper: seq<Kind>, ops: seq<Op>) returns (sink: seq<Byte>)
    requires forall i :: 0 <= i < |upper| ==> upper[i].Proxy? || (upper[i].Buffered? && upper[i].capacity > 0)
    requires forall i :: 0 <= i < |ops| && ops[i].Spans? ==> ops[i].fallback > 0
    ensures sink == Payload(ops)
  {
    var stack := new OutStack(canBuffer, upper);
    stack.WriteAll(ops);
    sink := stack.sink;
  }
}
