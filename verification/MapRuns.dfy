/**
 Whole runs of a hash map: every lookup answers from the history of insertions.
 */
module MapRuns {
  import opened Wrappers
  import opened HashMap

  /** `Insert` makes an entry with the default value unless there is one;
      `Get` is a lookup that falls back to the default value. */
  datatype Op<K, V> = Put(key: K, value: V) | Insert(key: K) | Find(key: K) | Get(key: K)

  /** The value under keys equal to `key` as the history says: the one last put,
      or `init` if there have only been insertions. */
  function Latest<K, V>(hp: Hasher<K>, init: V, ops: seq<Op<K, V>>, key: K): Option<V> {
    if ops == [] then None else
    Updated(hp, init, ops[|ops| - 1], key, Latest(hp, init, ops[..|ops| - 1], key))
  }

  /** The value under `key` after one operation. */
  function Updated<K, V>(hp: Hasher<K>, init: V, op: Op<K, V>, key: K, was: Option<V>): Option<V> {
    if op.Put? && hp.eq(key, op.key) then Some(op.value)
    else if op.Insert? && hp.eq(key, op.key) && was == None then Some(init)
    else was
  }

  /** The map answers every key as the history does, and holds no key twice. */
  ghost predicate Agrees<K(!new), V>(hp: Hasher<K>, init: V, m: map<K, V>, ops: seq<Op<K, V>>) {
    && (forall key, k :: k in m && hp.eq(key, k) ==> Latest(hp, init, ops, key) == Some(m[k]))
    && (forall key :: Latest(hp, init, ops, key).Some? ==> Present(hp, m, key))
    && (forall a, b :: a in m && b in m && hp.eq(a, b) ==> a == b)
  }

  lemma LatestSnoc<K, V>(hp: Hasher<K>, init: V, ops: seq<Op<K, V>>, op: Op<K, V>, key: K)
    ensures Latest(hp, init, ops + [op], key) == Updated(hp, init, op, key, Latest(hp, init, ops, key))
  {
    assert (ops + [op])[..|ops|] == ops;
  }

  /** The stored key that a put writes to. */
  ghost predicate Target<K, V>(hp: Hasher<K>, m: map<K, V>, key: K, k: K) {
    hp.eq(key, k) && (k in m || !Present(hp, m, key))
  }

  /** After a put to `k0`, a key finds `k0` exactly when it equals the key put. */
  lemma OnlyTarget<K(!new), V>(hp: Hasher<K>, init: V, m: map<K, V>, ops: seq<Op<K, V>>, key: K, k0: K, a: K, k: K)
    requires Lawful(hp) && Agrees(hp, init, m, ops) && Target(hp, m, key, k0)
    requires (k in m || k == k0) && hp.eq(a, k)
    ensures hp.eq(a, key) <==> k == k0
  {}

  lemma PutAgrees<K(!new), V>(hp: Hasher<K>, init: V, m: map<K, V>, ops: seq<Op<K, V>>, key: K, v: V, k0: K)
    requires Lawful(hp) && Agrees(hp, init, m, ops) && Target(hp, m, key, k0)
    ensures Agrees(hp, init, m[k0 := v], ops + [Put(key, v)])
  {
    var m', ops' := m[k0 := v], ops + [Put(key, v)];
    forall a, k | k in m' && hp.eq(a, k) ensures Latest(hp, init, ops', a) == Some(m'[k]) {
      OnlyTarget(hp, init, m, ops, key, k0, a, k);
      LatestSnoc(hp, init, ops, Put(key, v), a);
    }
    forall a | Latest(hp, init, ops', a).Some? ensures Present(hp, m', a) {
      LatestSnoc(hp, init, ops, Put(key, v), a);
      if hp.eq(a, key) {
        assert hp.eq(a, k0) && k0 in m';
      } else {
        var k :| k in m && hp.eq(a, k);
        assert k in m';
      }
    }
    forall a, b | a in m' && b in m' && hp.eq(a, b) ensures a == b {
      OnlyTarget(hp, init, m, ops, key, k0, a, b);
      OnlyTarget(hp, init, m, ops, key, k0, a, a);
    }
  }

  /** Operations that say the same about every key leave the map in agreement. */
  lemma SameLatest<K(!new), V>(hp: Hasher<K>, init: V, m: map<K, V>, ops: seq<Op<K, V>>, ops': seq<Op<K, V>>)
    requires Agrees(hp, init, m, ops)
    requires forall key :: Latest(hp, init, ops', key) == Latest(hp, init, ops, key)
    ensures Agrees(hp, init, m, ops')
  {}

  /** Equal keys are present together. */
  lemma PresentTogether<K(!new), V>(hp: Hasher<K>, m: map<K, V>, a: K, b: K)
    requires Lawful(hp) && hp.eq(a, b) && Present(hp, m, b)
    ensures Present(hp, m, a)
  {
    var k :| k in m && hp.eq(b, k);
    assert hp.eq(a, k);
  }

  /** An insertion does nothing to a key that is there, and otherwise what
      putting the default value does. */
  lemma InsertAgrees<K(!new), V>(hp: Hasher<K>, init: V, m: map<K, V>, ops: seq<Op<K, V>>, key: K)
    requires Lawful(hp) && Agrees(hp, init, m, ops)
    ensures Present(hp, m, key) ==> Agrees(hp, init, m, ops + [Insert(key)])
    ensures !Present(hp, m, key) ==> Agrees(hp, init, m[key := init], ops + [Insert(key)])
  {
    var ops' := ops + [Insert(key)];
    if Present(hp, m, key) {
      forall a ensures Latest(hp, init, ops', a) == Latest(hp, init, ops, a) {
        LatestSnoc(hp, init, ops, Insert(key), a);
        if hp.eq(a, key) {
          PresentTogether(hp, m, a, key);
        }
      }
      SameLatest(hp, init, m, ops, ops');
    } else {
      PutAgrees(hp, init, m, ops, key, init, key);
      var puts := ops + [Put(key, init)];
      forall a ensures Latest(hp, init, ops', a) == Latest(hp, init, puts, a) {
        LatestSnoc(hp, init, ops, Insert(key), a);
        LatestSnoc(hp, init, ops, Put(key, init), a);
        if hp.eq(a, key) && Latest(hp, init, ops, a).Some? {
          PresentTogether(hp, m, key, a);
        }
      }
      SameLatest(hp, init, m[key := init], puts, ops');
    }
  }

  // ------------------------------------------------------------------------------ runs

  /** The map after the first `i` operations. */
  ghost predicate After<K(!new), V>(hp: Hasher<K>, init: V, m: map<K, V>, ops: seq<Op<K, V>>, i: nat) {
    |m| <= i <= |ops| && Agrees(hp, init, m, ops[..i])
  }

  lemma LookupDone<K(!new), V>(hp: Hasher<K>, init: V, m: map<K, V>, ops: seq<Op<K, V>>, i: nat)
    requires After(hp, init, m, ops, i) && i < |ops| && (ops[i].Find? || ops[i].Get?)
    ensures After(hp, init, m, ops, i + 1)
  {
    assert ops[..i + 1] == ops[..i] + [ops[i]];
    forall key ensures Latest(hp, init, ops[..i + 1], key) == Latest(hp, init, ops[..i], key) {
      LatestSnoc(hp, init, ops[..i], ops[i], key);
    }
  }

  lemma PutDone<K(!new), V>(hp: Hasher<K>, init: V, m: map<K, V>, ops: seq<Op<K, V>>, i: nat, m': map<K, V>)
    requires Lawful(hp) && After(hp, init, m, ops, i) && i < |ops| && ops[i].Put?
    requires !Present(hp, m, ops[i].key) ==> m' == m[ops[i].key := ops[i].value]
    requires Present(hp, m, ops[i].key) ==> exists k :: k in m && hp.eq(ops[i].key, k) && m' == m[k := ops[i].value]
    ensures After(hp, init, m', ops, i + 1)
  {
    var k := ops[i].key;
    if Present(hp, m, ops[i].key) {
      k :| k in m && hp.eq(ops[i].key, k) && m' == m[k := ops[i].value];
    }
    PutAgrees(hp, init, m, ops[..i], ops[i].key, ops[i].value, k);
    assert m'.Keys == m.Keys + {k};
    assert ops[..i + 1] == ops[..i] + [ops[i]];
  }

  lemma InsertDone<K(!new), V>(hp: Hasher<K>, init: V, m: map<K, V>, ops: seq<Op<K, V>>, i: nat, m': map<K, V>)
    requires Lawful(hp) && After(hp, init, m, ops, i) && i < |ops| && ops[i].Insert?
    requires m' == if Present(hp, m, ops[i].key) then m else m[ops[i].key := init]
    ensures After(hp, init, m', ops, i + 1)
  {
    InsertAgrees(hp, init, m, ops[..i], ops[i].key);
    assert m[ops[i].key := init].Keys == m.Keys + {ops[i].key};
    assert ops[..i + 1] == ops[..i] + [ops[i]];
  }

  /** The answer the history gives to operation `i`. */
  function Expected<K, V>(hp: Hasher<K>, init: V, default: Option<V>, ops: seq<Op<K, V>>, i: nat): Option<V>
    requires i < |ops|
  {
    if ops[i].Put? || ops[i].Insert? then None else
    var v := Latest(hp, init, ops[..i], ops[i].key);
    if v == None && ops[i].Get? then default else v
  }

  lemma Found<K(!new), V>(hp: Hasher<K>, init: V, default: Option<V>, m: map<K, V>, ops: seq<Op<K, V>>, i: nat, v: Option<V>)
    requires After(hp, init, m, ops, i) && i < |ops| && (ops[i].Find? || ops[i].Get?)
    requires !Present(hp, m, ops[i].key) ==> v == if ops[i].Get? then default else None
    requires Present(hp, m, ops[i].key) ==> exists k :: k in m && hp.eq(ops[i].key, k) && v == Some(m[k])
    ensures v == Expected(hp, init, default, ops, i)
  {}

  /** As many operations as there are answers have been done, each answered
      from the history before it. */
  ghost predicate Answered<K, V>(hp: Hasher<K>, init: V, default: Option<V>, ops: seq<Op<K, V>>, answers: seq<Option<V>>) {
    |answers| <= |ops| && forall i :: 0 <= i < |answers| ==> answers[i] == Expected(hp, init, default, ops, i)
  }

  lemma AnsweredSnoc<K, V>(hp: Hasher<K>, init: V, default: Option<V>, ops: seq<Op<K, V>>,
                           answers: seq<Option<V>>, answer: Option<V>)
    requires Answered(hp, init, default, ops, answers) && |answers| < |ops|
    requires answer == Expected(hp, init, default, ops, |answers|)
    ensures Answered(hp, init, default, ops, answers + [answer])
  {}

  /** One operation of a run. */
  method Perform<K(==, !new), V>(m: GuMap<K, V>, op: Op<K, V>, ghost ops: seq<Op<K, V>>, ghost i: nat, ghost bound: nat)
      returns (answer: Option<V>)
    requires m.Valid() && After(m.hp, m.DefaultValue(), m.model, ops, i) && i < |ops| && op == ops[i]
    requires Room(Wanted(|ops|), bound, m.keySize, m.valueSize)
    modifies m, m.keys, m.values
    ensures m.Valid() && After(m.hp, m.DefaultValue(), m.model, ops, i + 1)
    ensures answer == Expected(m.hp, m.DefaultValue(), m.default, ops, i)
    ensures (m.keys == old(m.keys) && m.values == old(m.values)) || (fresh(m.keys) && fresh(m.values))
  {
    ghost var before, init := m.model, m.DefaultValue();
    answer := None;
    match op {
      case Put(key, v) =>
        m.Put(key, v, bound);
        PutDone(m.hp, init, before, ops, i, m.model);
      case Insert(key) =>
        var _ := m.Insert(key, bound);
        InsertDone(m.hp, init, before, ops, i, m.model);
      case Find(key) =>
        answer := m.Find(key);
        Found(m.hp, init, m.default, m.model, ops, i, answer);
        LookupDone(m.hp, init, m.model, ops, i);
      case Get(key) =>
        answer := m.FindDefault(key);
        Found(m.hp, init, m.default, m.model, ops, i, answer);
        LookupDone(m.hp, init, m.model, ops, i);
    }
  }

  method Advance<K(==, !new), V>(m: GuMap<K, V>, ops: seq<Op<K, V>>, answers: seq<Option<V>>, ghost bound: nat)
      returns (answers': seq<Option<V>>)
    requires m.Valid() && After(m.hp, m.DefaultValue(), m.model, ops, |answers|) && |answers| < |ops|
    requires Answered(m.hp, m.DefaultValue(), m.default, ops, answers)
    requires Room(Wanted(|ops|), bound, m.keySize, m.valueSize)
    modifies m, m.keys, m.values
    ensures m.Valid() && |answers'| == |answers| + 1 && After(m.hp, m.DefaultValue(), m.model, ops, |answers'|)
    ensures Answered(m.hp, m.DefaultValue(), m.default, ops, answers')
    ensures (m.keys == old(m.keys) && m.values == old(m.values)) || (fresh(m.keys) && fresh(m.values))
  {
    var answer := Perform(m, ops[|answers|], ops, |answers|, bound);
    AnsweredSnoc(m.hp, m.DefaultValue(), m.default, ops, answers, answer);
    answers' := answers + [answer];
  }

  /** Any run of puts, insertions and lookups on a new map: every lookup answers
      from the history before it, whatever resizing went on meanwhile. */
  method RunOps<K(==, !new), V>(hp: Hasher<K>, keySize: nat, valueSize: nat, default: Option<V>, zeroValue: V,
                                ops: seq<Op<K, V>>, ghost bound: nat)
      returns (answers: seq<Option<V>>)
    requires Lawful(hp) && keySize > 0 && Room(Wanted(|ops|), bound, keySize, valueSize)
    ensures |answers| == |ops|
    ensures Answered(hp, if default.Some? then default.value else zeroValue, default, ops, answers)
  {
    var m := new GuMap(hp, keySize, valueSize, default, zeroValue, bound);
    answers := [];
    while |answers| < |ops|
      invariant m.Valid() && fresh(m.keys) && fresh(m.values)
      invariant After(hp, m.DefaultValue(), m.model, ops, |answers|)
      invariant Answered(hp, m.DefaultValue(), default, ops, answers)
    {
      answers := Advance(m, ops, answers, bound);
    }
  }
}
