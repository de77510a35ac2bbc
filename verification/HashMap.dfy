/**
 The open-addressing hash map (`gu/map.c`).  An all-zero key marks a free slot,
 except at `zeroIdx`, where the zero key itself is stored.
 */
module HashMap {
  import opened Wrappers
  import opened Primes
  import opened Probing
  import opened Memory

  /** Equality and hash of the keys, and the all-zero key. */
  datatype Hasher<!K> = Hasher(eq: (K, K) -> bool, hash: K -> nat, zero: K)

  ghost predicate Lawful<K(!new)>(hp: Hasher<K>) {
    && (forall a :: hp.eq(a, a))
    && (forall a, b :: hp.eq(a, b) ==> hp.eq(b, a) && hp.hash(a) == hp.hash(b))
    && (forall a, b, c :: hp.eq(a, b) && hp.eq(b, c) ==> hp.eq(a, c))
  }

  const NO_IDX := -1

  // ----------------------------------------------------------------- tables as values

  predicate Occupied<K(==)>(hp: Hasher<K>, ks: seq<K>, z: int, j: nat)
    requires j < |ks|
  {
    ks[j] != hp.zero || z == j
  }

  /** Probing for `k` meets only occupied slots before its `t`-th probe. */
  ghost predicate PassedBefore<K>(hp: Hasher<K>, ks: seq<K>, z: int, k: K, t: nat)
    requires |ks| > 2
  {
    forall s: nat :: s < t ==> Occupied(hp, ks, z, Probe(hp.hash(k), |ks|, s))
  }

  /** Probing for `k` gets to slot `j`. */
  ghost predicate Reaches<K>(hp: Hasher<K>, ks: seq<K>, z: int, k: K, j: nat)
    requires |ks| > 2
  {
    exists t: nat :: Probe(hp.hash(k), |ks|, t) == j && PassedBefore(hp, ks, z, k, t)
  }

  ghost predicate TableOk<K>(hp: Hasher<K>, ks: seq<K>, z: int) {
    && |ks| >= 13 && IsPrime(|ks|)
    && (z == NO_IDX || (0 <= z < |ks| && ks[z] == hp.zero))
    && (forall j :: 0 <= j < |ks| && Occupied(hp, ks, z, j) ==> Reaches(hp, ks, z, ks[j], j))
    && NoTwoEqual(hp, ks, z)
  }

  ghost predicate NoTwoEqual<K>(hp: Hasher<K>, ks: seq<K>, z: int) {
    forall i, j :: 0 <= i < j < |ks| && Occupied(hp, ks, z, i) && Occupied(hp, ks, z, j) ==> !hp.eq(ks[i], ks[j])
  }

  /** The entries of a table are exactly those of a mathematical map. */
  ghost predicate Holds<K, V>(hp: Hasher<K>, ks: seq<K>, z: int, vs: seq<V>, m: map<K, V>) {
    && |vs| == |ks|
    && (forall j :: 0 <= j < |ks| && Occupied(hp, ks, z, j) ==> ks[j] in m && m[ks[j]] == vs[j])
    && (forall k :: k in m ==> exists j :: 0 <= j < |ks| && Occupied(hp, ks, z, j) && ks[j] == k)
  }

  /** The value slots of free entries hold the all-zero value. */
  ghost predicate FreeAreZero<K, V>(hp: Hasher<K>, ks: seq<K>, z: int, vs: seq<V>, zeroV: V)
    requires |vs| == |ks|
  {
    forall j :: 0 <= j < |ks| && !Occupied(hp, ks, z, j) ==> vs[j] == zeroV
  }

  /** Some key of `m` equals `k`. */
  ghost predicate Present<K, V>(hp: Hasher<K>, m: map<K, V>, k: K) {
    exists k' :: k' in m && hp.eq(k, k')
  }

  /** A table with fewer entries than slots has a free slot, and probing for any
      key gets to one. */
  lemma FreeSlot<K(!new), V>(hp: Hasher<K>, ks: seq<K>, z: int, vs: seq<V>, m: map<K, V>) returns (j: nat)
    requires Lawful(hp) && TableOk(hp, ks, z) && Holds(hp, ks, z, vs, m) && |m| < |ks|
    ensures j < |ks| && !Occupied(hp, ks, z, j)
  {
    if forall j :: 0 <= j < |ks| ==> Occupied(hp, ks, z, j) {
      forall i, j | 0 <= i < j < |ks| ensures ks[i] != ks[j] {
        assert !hp.eq(ks[i], ks[j]);
      }
      DistinctSize(ks);
      assert Elems(ks) <= m.Keys;
      Probing.SubsetSize(Elems(ks), m.Keys);
      assert false;
    }
    j :| 0 <= j < |ks| && !Occupied(hp, ks, z, j);
  }

  /** The first `t` probes for `k` met occupied slots with other keys. */
  ghost predicate Searched<K>(hp: Hasher<K>, ks: seq<K>, z: int, k: K, t: nat)
    requires |ks| > 2
  {
    && PassedBefore(hp, ks, z, k, t)
    && forall s: nat :: s < t ==> !hp.eq(k, ks[Probe(hp.hash(k), |ks|, s)])
  }

  /** One more probe; since some probe meets a free slot, the search ends. */
  lemma SearchStep<K>(hp: Hasher<K>, ks: seq<K>, z: int, k: K, t: nat, last: nat)
    requires |ks| > 2 && Searched(hp, ks, z, k, t) && t <= last
    requires !Occupied(hp, ks, z, Probe(hp.hash(k), |ks|, last))
    requires var j := Probe(hp.hash(k), |ks|, t); Occupied(hp, ks, z, j) && !hp.eq(k, ks[j])
    ensures t < last && Searched(hp, ks, z, k, t + 1)
    ensures NextSlot(Probe(hp.hash(k), |ks|, t), Step(hp.hash(k), |ks|), |ks|) == Probe(hp.hash(k), |ks|, t + 1)
  {
    ProbeStep(hp.hash(k), |ks|, t);
  }

  /** Where probing stops at a free slot, no equal key is stored anywhere. */
  lemma StopMeansAbsent<K(!new), V>(hp: Hasher<K>, ks: seq<K>, z: int, vs: seq<V>, m: map<K, V>, k: K, t: nat)
    requires Lawful(hp) && TableOk(hp, ks, z) && Holds(hp, ks, z, vs, m)
    requires !Occupied(hp, ks, z, Probe(hp.hash(k), |ks|, t)) && Searched(hp, ks, z, k, t)
    ensures !Present(hp, m, k) && Reaches(hp, ks, z, k, Probe(hp.hash(k), |ks|, t))
  {
    forall k' | k' in m ensures !hp.eq(k, k') {
      var j :| 0 <= j < |ks| && Occupied(hp, ks, z, j) && ks[j] == k';
      assert Reaches(hp, ks, z, ks[j], j);
      var t': nat :| Probe(hp.hash(k'), |ks|, t') == j && PassedBefore(hp, ks, z, k', t');
      assert t < t' ==> Occupied(hp, ks, z, Probe(hp.hash(k'), |ks|, t));
    }
  }

  /** Filling the free slot where probing stopped keeps the table in order. */
  lemma FillOk<K(!new)>(hp: Hasher<K>, ks: seq<K>, z: int, k: K, j: nat, z': int)
    requires Lawful(hp) && TableOk(hp, ks, z)
    requires j < |ks| && !Occupied(hp, ks, z, j) && Reaches(hp, ks, z, k, j)
    requires forall i :: 0 <= i < |ks| && Occupied(hp, ks, z, i) ==> !hp.eq(k, ks[i])
    requires z' == if k == hp.zero then j else z
    ensures k == hp.zero ==> z == NO_IDX
    ensures TableOk(hp, ks[j := k], z')
    ensures forall i :: 0 <= i < |ks| ==>
              (Occupied(hp, ks[j := k], z', i) <==> i == j || Occupied(hp, ks, z, i))
  {}

  lemma FillHolds<K(!new), V>(hp: Hasher<K>, ks: seq<K>, z: int, vs: seq<V>, m: map<K, V>,
                              k: K, j: nat, z': int, v: V)
    requires Lawful(hp) && TableOk(hp, ks, z) && Holds(hp, ks, z, vs, m)
    requires j < |ks| && !Occupied(hp, ks, z, j) && !Present(hp, m, k)
    requires forall i :: 0 <= i < |ks| ==>
               (Occupied(hp, ks[j := k], z', i) <==> i == j || Occupied(hp, ks, z, i))
    ensures Holds(hp, ks[j := k], z', vs[j := v], m[k := v]) && k !in m && |m[k := v]| == |m| + 1
  {}

  lemma FillAll<K(!new), V>(hp: Hasher<K>, ks: seq<K>, z: int, vs: seq<V>, m: map<K, V>,
                            k: K, j: nat, z': int, v: V, zeroV: V)
    requires Lawful(hp) && TableOk(hp, ks, z) && Holds(hp, ks, z, vs, m) && FreeAreZero(hp, ks, z, vs, zeroV)
    requires j < |ks| && !Occupied(hp, ks, z, j) && Reaches(hp, ks, z, k, j) && !Present(hp, m, k)
    requires z' == if k == hp.zero then j else z
    ensures vs[j] == zeroV && (k == hp.zero ==> z == NO_IDX) && z != j
    ensures TableOk(hp, ks[j := k], z') && Occupied(hp, ks[j := k], z', j)
    ensures Holds(hp, ks[j := k], z', vs[j := v], m[k := v]) && k !in m && |m[k := v]| == |m| + 1
    ensures FreeAreZero(hp, ks[j := k], z', vs[j := v], zeroV)
  {
    forall i | 0 <= i < |ks| && Occupied(hp, ks, z, i) ensures !hp.eq(k, ks[i]) {
      assert ks[i] in m;
    }
    FillOk(hp, ks, z, k, j, z');
    FillHolds(hp, ks, z, vs, m, k, j, z', v);
  }

  lemma SetHolds<K(!new), V>(hp: Hasher<K>, ks: seq<K>, z: int, vs: seq<V>, m: map<K, V>, j: nat, v: V)
    requires Lawful(hp) && TableOk(hp, ks, z) && Holds(hp, ks, z, vs, m)
    requires j < |ks| && Occupied(hp, ks, z, j)
    ensures Holds(hp, ks, z, vs[j := v], m[ks[j] := v]) && m[ks[j] := v].Keys == m.Keys
  {}

  /** Room to resize for `need` entries: a pair of twin primes at or above it
      whose buffers fit the address space. */
  ghost predicate Room(need: nat, bound: nat, keySize: nat, valueSize: nat) {
    && IsUpperTwin(bound) && need <= bound
    && SizeFits(bound * keySize) && SizeFits(bound * valueSize)
  }

  /** The number of slots asked for when `occupied` are in use. */
  function Wanted(occupied: nat): nat {
    if occupied * 4 / 3 + 1 > 11 then occupied * 4 / 3 + 1 else 11
  }

  predicate Crowded(entries: nat, occupied: nat) {
    entries <= occupied + occupied / 4
  }

  /** After a resize for `occupied` entries the table stays uncrowded until
      they are all back, and has a slot to spare for one more. */
  lemma WantedEnough(occupied: nat, entries: nat, k: nat)
    requires entries >= Wanted(occupied) && entries >= 13 && k <= occupied
    ensures k < occupied ==> !Crowded(entries, k)
    ensures k + 1 < entries
  {}

  lemma UncrowdedSpare(entries: nat, occupied: nat)
    requires entries >= 13 && !Crowded(entries, occupied)
    ensures occupied + 1 < entries
  {}

  lemma TwinAtLeast13(t: int)
    requires IsUpperTwin(t) && t >= 11
    ensures t >= 13
  {
    SmallPrimeIsPrime(9);
    SmallPrimeIsPrime(12);
  }

  lemma MulBound(a: nat, b: nat, c: nat)
    requires a <= b
    ensures a * c <= b * c
  {}

  /** The table size chosen by a resize: a prime, twin to a prime, at least 13
      and at least what was wanted. */
  method TableSize(occupied: nat, keySize: nat, valueSize: nat, ghost bound: nat) returns (n: nat)
    requires keySize > 0 && Room(Wanted(occupied), bound, keySize, valueSize)
    ensures IsUpperTwin(n) && n >= 13 && n >= Wanted(occupied)
  {
    var req := TwinPrimeSup(Wanted(occupied), bound);
    TwinAtLeast13(req);
    MulBound(req, bound, keySize);
    MulBound(req, bound, valueSize);
    var keyBytes, _ := BufSize(req * keySize);
    DivCovers(keyBytes, keySize, req);
    var entries := keyBytes / keySize;
    if valueSize > 0 {
      var valueBytes, _ := BufSize(req * valueSize);
      DivCovers(valueBytes, valueSize, req);
      if valueBytes / valueSize < entries {
        entries := valueBytes / valueSize;
      }
    }
    n := TwinPrimeInf(entries);
    assert req <= entries && IsUpperTwin(req);
  }

  class GuMap<K(==, !new), V> {
    const hp: Hasher<K>
    const keySize: nat
    const valueSize: nat
    const default: Option<V>
    const zeroValue: V

    var keys: array<K>
    var values: array<V>
    var nOccupied: nat
    var nEntries: nat
    var zeroIdx: int

    /** The mathematical map, keyed by the stored keys. */
    ghost var model: map<K, V>

    /** What holds even of the slotless map that has not been resized yet. */
    ghost predicate Consistent()
      reads this, keys, values
    {
      && Lawful(hp) && keySize > 0
      && keys.Length == values.Length == nEntries && keys as object != values as object
      && NoTwoEqual(hp, keys[..], zeroIdx)
      && Holds(hp, keys[..], zeroIdx, values[..], model)
      && nOccupied == |model|
    }

    ghost predicate Valid()
      reads this, keys, values
    {
      && Consistent()
      && TableOk(hp, keys[..], zeroIdx)
      && nOccupied < nEntries
      && FreeAreZero(hp, keys[..], zeroIdx, values[..], zeroValue)
    }

    method Lookup(key: K) returns (found: bool, idx: nat)
      requires Valid()
      ensures idx < nEntries
      ensures found <==> Present(hp, model, key)
      ensures found ==> Occupied(hp, keys[..], zeroIdx, idx) && hp.eq(key, keys[idx])
      ensures !found ==> !Occupied(hp, keys[..], zeroIdx, idx) && Reaches(hp, keys[..], zeroIdx, key, idx)
    {
      var n := nEntries;
      var hash := hp.hash(key);
      idx := hash % n;
      var offset := Step(hash, n);
      ghost var ks := keys[..];
      ghost var t: nat := 0;
      ghost var free := FreeSlot(hp, ks, zeroIdx, values[..], model);
      ghost var last := ProbeCovers(hash, n, free);
      ProbeStart(hash, n);
      while true
        invariant t <= last && idx == Probe(hash, n, t) && Searched(hp, ks, zeroIdx, key, t)
        decreases last - t
      {
        if keys[idx] == hp.zero && zeroIdx != idx {
          StopMeansAbsent(hp, ks, zeroIdx, values[..], model, key, t);
          return false, idx;
        } else if hp.eq(key, keys[idx]) {
          assert Occupied(hp, ks, zeroIdx, idx) && ks[idx] in model;
          return true, idx;
        }
        SearchStep(hp, ks, zeroIdx, key, t, last);
        idx := NextSlot(idx, offset, n);
        t := t + 1;
      }
    }

    /** The value of the stored key equal to `key`, or none. */
    method Find(key: K) returns (v: Option<V>)
      requires Valid()
      ensures v.Some? <==> Present(hp, model, key)
      ensures v.Some? ==> exists k :: k in model && hp.eq(key, k) && v.value == model[k]
    {
      var found, idx := Lookup(key);
      if found {
        assert Occupied(hp, keys[..], zeroIdx, idx) && keys[..][idx] in model;
        return Some(values[idx]);
      }
      v := None;
    }

    /** The value, or else the map's default value, if it has one. */
    method FindDefault(key: K) returns (v: Option<V>)
      requires Valid()
      ensures !Present(hp, model, key) ==> v == default
      ensures Present(hp, model, key) ==> exists k :: k in model && hp.eq(key, k) && v == Some(model[k])
    {
      v := Find(key);
      if v == None {
        v := default;
      }
    }

    function DefaultValue(): V {
      if default.Some? then default.value else zeroValue
    }

    constructor (hp: Hasher<K>, keySize: nat, valueSize: nat, default: Option<V>, zeroValue: V, ghost bound: nat)
      requires Lawful(hp) && keySize > 0 && Room(11, bound, keySize, valueSize)
      ensures Valid() && model == map[]
      ensures this.hp == hp && this.keySize == keySize && this.valueSize == valueSize
      ensures this.default == default && this.zeroValue == zeroValue
      ensures fresh(keys) && fresh(values)
    {
      this.hp, this.keySize, this.valueSize := hp, keySize, valueSize;
      this.default, this.zeroValue := default, zeroValue;
      keys := new K[0](_ => hp.zero);
      values := new V[0](_ => zeroValue);
      nOccupied, nEntries, zeroIdx := 0, 0, NO_IDX;
      model := map[];
      new;
      Resize(bound);
    }

    /** Moves all entries to a larger table.  The insertions it makes never
        resize again: they are allowed no room to. */
    method Resize(ghost bound: nat)
      requires Consistent() && Room(Wanted(nOccupied), bound, keySize, valueSize)
      modifies this
      ensures Valid() && model == old(model) && nOccupied + 1 < nEntries
      ensures fresh(keys) && fresh(values)
      decreases 1, 0
    {
      // the old buffers are only read from here on
      var ks, vs, oldEntries, oldZero := keys[..], values[..], nEntries, zeroIdx;
      ghost var was := model;
      var n := TableSize(nOccupied, keySize, valueSize, bound);
      Clear(n);
      for i := 0 to oldEntries
        invariant Valid() && nEntries == n && fresh(keys) && fresh(values)
        invariant Moved(hp, ks, oldZero, i, was, model)
      {
        if ks[i] != hp.zero || oldZero == i {
          MovedFewer(hp, ks, oldZero, vs, i, was, model);
          WantedEnough(|was|, n, nOccupied);
          ghost var before := model;
          Move(ks[i], vs[i]);
          MovedStep(hp, ks, oldZero, vs, i, was, before, model);
        } else {
          MovedSkip(hp, ks, oldZero, i, was, model);
        }
      }
      MovedAll(hp, ks, oldZero, vs, was, model);
      WantedEnough(|was|, n, nOccupied);
    }

    /** New, zeroed buffers of `n` slots. */
    method Clear(n: nat)
      requires Lawful(hp) && keySize > 0 && IsPrime(n) && n >= 13
      modifies this
      ensures Valid() && model == map[] && nEntries == n
      ensures fresh(keys) && fresh(values)
    {
      var zero, zeroV := hp.zero, zeroValue;
      keys := new K[n](_ => zero);
      values := new V[n](_ => zeroV);
      nEntries, nOccupied, zeroIdx := n, 0, NO_IDX;
      model := map[];
      EmptyOk(hp, keys[..], values[..], zeroV);
    }

    /** Re-inserts one old entry, without resizing. */
    method Move(key: K, v: V)
      requires Valid() && !Present(hp, model, key) && !Crowded(nEntries, nOccupied)
      modifies this, keys, values
      ensures Valid() && model == old(model)[key := v]
      ensures keys == old(keys) && values == old(values) && nEntries == old(nEntries)
      decreases 0, 2
    {
      var j := Insert(key, 0);
      SetAt(j, v);
      Overwrite(old(model), key, DefaultValue(), v);
    }

    method SetAt(idx: nat, v: V)
      requires Valid() && idx < nEntries && Occupied(hp, keys[..], zeroIdx, idx)
      modifies this`model, values
      ensures Valid() && model == old(model)[keys[idx] := v] && keys[idx] in old(model)
    {
      SetHolds(hp, keys[..], zeroIdx, values[..], model, idx, v);
      assert keys[..][idx] in model;
      values[idx] := v;
      assert values[..] == old(values[..])[idx := v];
      model := model[keys[idx] := v];
      assert model.Keys == old(model).Keys;
      Probing.SubsetSize(model.Keys, old(model).Keys);
    }

    /** Finds or makes the entry of `key`; returns its slot. */
    method Insert(key: K, ghost bound: nat) returns (idx: nat)
      requires Valid()
      // only a new key in a crowded table makes it grow
      requires Crowded(nEntries, nOccupied) && !Present(hp, model, key) ==>
                 Room(Wanted(nOccupied), bound, keySize, valueSize)
      modifies this, keys, values
      ensures Valid() && idx < nEntries && Occupied(hp, keys[..], zeroIdx, idx)
      ensures Present(hp, old(model), key) ==> model == old(model) && hp.eq(key, keys[idx])
      ensures !Present(hp, old(model), key) ==>
                key !in old(model) && model == old(model)[key := DefaultValue()] && keys[idx] == key
      ensures (keys == old(keys) && values == old(values) && nEntries == old(nEntries))
              || (old(Crowded(nEntries, nOccupied)) && fresh(keys) && fresh(values))
      decreases if Crowded(nEntries, nOccupied) then 1 else 0, 1
    {
      var found;
      found, idx := Lookup(key);
      if !found {
        if Crowded(nEntries, nOccupied) {
          Resize(bound);
          found, idx := Lookup(key);
          assert !found;
        } else {
          UncrowdedSpare(nEntries, nOccupied);
        }
        Fill(key, idx);
      }
    }

    method Fill(key: K, idx: nat)
      requires Valid() && nOccupied + 1 < nEntries && idx < nEntries
      requires !Present(hp, model, key)
      requires !Occupied(hp, keys[..], zeroIdx, idx) && Reaches(hp, keys[..], zeroIdx, key, idx)
      modifies this`nOccupied, this`zeroIdx, this`model, keys, values
      ensures Valid() && Occupied(hp, keys[..], zeroIdx, idx) && keys[idx] == key
      ensures key !in old(model) && model == old(model)[key := DefaultValue()]
    {
      ghost var z' := if key == hp.zero then idx else zeroIdx;
      FillAll(hp, keys[..], zeroIdx, values[..], model, key, idx, z', DefaultValue(), zeroValue);
      FillSlot(key, idx);
      if keys[idx] == hp.zero && zeroIdx != idx {
        assert zeroIdx == NO_IDX;
        zeroIdx := idx;
      }
      nOccupied := nOccupied + 1;
      model := model[key := DefaultValue()];
    }

    /** Writes the key, and the default value if there is one; otherwise the
        slot keeps the all-zero value it has. */
    method FillSlot(key: K, idx: nat)
      requires idx < keys.Length == values.Length && keys as object != values as object
      requires values[idx] == zeroValue
      modifies keys, values
      ensures keys[..] == old(keys[..])[idx := key]
      ensures values[..] == old(values[..])[idx := DefaultValue()]
    {
      keys[idx] := key;
      if default.Some? {
        values[idx] := default.value;
      }
    }

    /** Insert, then store (`gu_map_put`). */
    method Put(key: K, v: V, ghost bound: nat)
      requires Valid()
      // only a new key in a crowded table makes it grow
      requires Crowded(nEntries, nOccupied) && !Present(hp, model, key) ==>
                 Room(Wanted(nOccupied), bound, keySize, valueSize)
      modifies this, keys, values
      ensures Valid()
      ensures !Present(hp, old(model), key) ==> key !in old(model) && model == old(model)[key := v]
      ensures Present(hp, old(model), key) ==>
                exists k :: k in old(model) && hp.eq(key, k) && model == old(model)[k := v]
      ensures (keys == old(keys) && values == old(values)) || (fresh(keys) && fresh(values))
    {
      var idx := Insert(key, bound);
      assert keys[..][idx] in model;
      SetAt(idx, v);
      Overwrite(old(model), key, DefaultValue(), v);
    }
  }

  lemma Overwrite<K, V>(m: map<K, V>, k: K, v: V, v': V)
    ensures m[k := v][k := v'] == m[k := v']
  {}

  lemma EmptyOk<K, V>(hp: Hasher<K>, ks: seq<K>, vs: seq<V>, zeroV: V)
    requires |ks| == |vs| && |ks| >= 13 && IsPrime(|ks|)
    requires forall j :: 0 <= j < |ks| ==> ks[j] == hp.zero && vs[j] == zeroV
    ensures TableOk(hp, ks, NO_IDX) && Holds(hp, ks, NO_IDX, vs, map[])
    ensures FreeAreZero(hp, ks, NO_IDX, vs, zeroV)
  {}

  // ------------------------------------------------------------------------ rehashing

  /** The first `i` slots of the old table have been moved. */
  ghost predicate Moved<K, V>(hp: Hasher<K>, ks: seq<K>, z: int, i: nat, was: map<K, V>, m: map<K, V>)
    requires i <= |ks|
  {
    && (forall k :: k in m ==> k in was && m[k] == was[k])
    && (forall j :: 0 <= j < i && Occupied(hp, ks, z, j) ==> ks[j] in m)
    && (forall k :: k in m ==> exists j :: 0 <= j < i && Occupied(hp, ks, z, j) && ks[j] == k)
  }

  lemma MovedFewer<K(!new), V>(hp: Hasher<K>, ks: seq<K>, z: int, vs: seq<V>, i: nat, was: map<K, V>, m: map<K, V>)
    requires Lawful(hp) && i < |ks| && Occupied(hp, ks, z, i) && NoTwoEqual(hp, ks, z)
    requires Holds(hp, ks, z, vs, was) && Moved(hp, ks, z, i, was, m)
    ensures |m| < |was| && !Present(hp, m, ks[i])
  {
    forall k | k in m ensures !hp.eq(ks[i], k) {
      var j :| 0 <= j < i && Occupied(hp, ks, z, j) && ks[j] == k;
      assert !hp.eq(ks[j], ks[i]);
    }
    assert ks[i] in was && hp.eq(ks[i], ks[i]);
    Probing.SubsetSize(m.Keys, was.Keys);
  }

  lemma MovedStep<K(!new), V>(hp: Hasher<K>, ks: seq<K>, z: int, vs: seq<V>, i: nat,
                              was: map<K, V>, m: map<K, V>, m': map<K, V>)
    requires i < |ks| && Occupied(hp, ks, z, i) && Holds(hp, ks, z, vs, was) && Moved(hp, ks, z, i, was, m)
    requires m' == m[ks[i] := vs[i]]
    ensures Moved(hp, ks, z, i + 1, was, m')
  {}

  lemma MovedSkip<K, V>(hp: Hasher<K>, ks: seq<K>, z: int, i: nat, was: map<K, V>, m: map<K, V>)
    requires i < |ks| && !Occupied(hp, ks, z, i) && Moved(hp, ks, z, i, was, m)
    ensures Moved(hp, ks, z, i + 1, was, m)
  {}

  lemma MovedAll<K(!new), V>(hp: Hasher<K>, ks: seq<K>, z: int, vs: seq<V>, was: map<K, V>, m: map<K, V>)
    requires Holds(hp, ks, z, vs, was) && Moved(hp, ks, z, |ks|, was, m)
    ensures m == was
  {}
}
