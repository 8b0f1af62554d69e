/** Nested maps addressed by dotted keys: what looking up, putting, deleting and merging compute. */
module MapStr {
  import opened DottedKeys
  import opened Json

  datatype FindError = KeyNotFound | NotAMap

  datatype Result<+T> = Ok(value: T) | Err(error: FindError)

  type Fields = map<string, Json>

  /** GetValue: a key present as it is comes before the nested reading of its dots. */
  function Get(m: Fields, key: string): (r: Result<Json>)
    ensures r.Ok? ==> r.value < Object(m)
    decreases |key|
  {
    if key in m then Ok(m[key])
    else if !HasDot(key) || Base(key) !in m then Err(KeyNotFound)
    else
      match m[Base(key)]
      case Object(sub) => Get(sub, Rest(key))
      case _ => Err(NotAMap)
  }

  /** Put: the map with `v` under `key`, creating the maps in between that are missing. */
  function Put(m: Fields, key: string, v: Json): Result<Fields>
    decreases |key|
  {
    if key in m || !HasDot(key) then Ok(m[key := v])
    else
      var k := Base(key);
      match if k in m then m[k] else Object(map[])
      case Object(sub) =>
        (match Put(sub, Rest(key), v)
         case Ok(sub') => Ok(m[k := Object(sub')])
         case Err(e) => Err(e))
      case _ => Err(NotAMap)
  }

  /** Delete: the map without the entry that Get finds. */
  function Delete(m: Fields, key: string): Result<Fields>
    decreases |key|
  {
    if key in m then Ok(m - {key})
    else if !HasDot(key) || Base(key) !in m then Err(KeyNotFound)
    else
      match m[Base(key)]
      case Object(sub) =>
        (match Delete(sub, Rest(key))
         case Ok(sub') => Ok(m[Base(key) := Object(sub')])
         case Err(e) => Err(e))
      case _ => Err(NotAMap)
  }

  /** `p` is `key` or what comes before one of its dots. */
  predicate DottedPrefix(p: string, key: string) {
    p == key || (|p| < |key| && key[..|p|] == p && key[|p|] == '.')
  }

  predicate Unrelated(a: string, b: string) {
    !DottedPrefix(a, b) && !DottedPrefix(b, a)
  }

  // ----- Dotted prefixes and cutting keys

  lemma BaseIsPrefix(key: string)
    requires HasDot(key)
    ensures DottedPrefix(Base(key), key)
  {
    CutRebuilds(key);
  }

  lemma PrefixOfRest(p: string, key: string)
    requires HasDot(key)
    ensures DottedPrefix(p, Rest(key)) ==> DottedPrefix(Base(key) + "." + p, key)
    ensures HasDot(p) && Base(p) == Base(key) && DottedPrefix(Rest(p), Rest(key)) ==> DottedPrefix(p, key)
  {
    CutRebuilds(key);
    if HasDot(p) {
      CutRebuilds(p);
    }
  }

  lemma UnrelatedRests(a: string, b: string)
    requires Unrelated(a, b) && HasDot(a) && HasDot(b) && Base(a) == Base(b)
    ensures Unrelated(Rest(a), Rest(b))
  {
    PrefixOfRest(a, b);
    PrefixOfRest(b, a);
  }

  lemma UnrelatedToBase(a: string, b: string)
    requires Unrelated(a, b) && HasDot(b)
    ensures a != b && a != Base(b)
  {
    BaseIsPrefix(b);
  }

  // ----- Laws

  /** After a successful Put, Get finds what was put. */
  lemma {:induction false} PutThenGet(m: Fields, key: string, v: Json)
    requires Put(m, key, v).Ok?
    ensures Get(Put(m, key, v).value, key) == Ok(v)
    decreases |key|
  {
    if key !in m && HasDot(key) {
      var k := Base(key);
      var sub := if k in m then m[k].fields else map[];
      PutThenGet(sub, Rest(key), v);
    }
  }

  /** Put does not touch what any unrelated key finds, or fails to find. */
  lemma {:induction false} PutFrame(m: Fields, key: string, v: Json, other: string)
    requires Put(m, key, v).Ok? && Unrelated(key, other)
    ensures Get(Put(m, key, v).value, other) == Get(m, other)
    decreases |key|
  {
    if HasDot(other) {
      UnrelatedToBase(key, other);
    }
    if key !in m && HasDot(key) {
      UnrelatedToBase(other, key);
      if other !in m && HasDot(other) && Base(other) == Base(key) {
        UnrelatedRests(key, other);
        var sub := if Base(key) in m then m[Base(key)].fields else map[];
        PutFrame(sub, Rest(key), v, Rest(other));
      }
    }
  }

  /** Put fails only where something that is not a map is in the way. */
  lemma {:induction false} PutFails(m: Fields, key: string, v: Json)
    ensures Put(m, key, v).Err? <==> Get(m, key) == Err(NotAMap)
    ensures Put(m, key, v).Err? ==> Put(m, key, v) == Err(NotAMap)
    ensures Put(m, key, v).Err? ==> Put(m, key, v).error == NotAMap
    decreases |key|
  {
    if key !in m && HasDot(key) && Base(key) in m && m[Base(key)].Object? {
      PutFails(m[Base(key)].fields, Rest(key), v);
    } else if key !in m && HasDot(key) && Base(key) !in m {
      PutInEmpty(Rest(key), v);
    }
  }

  lemma {:induction false} PutInEmpty(key: string, v: Json)
    ensures Put(map[], key, v).Ok?
    decreases |key|
  {
    if HasDot(key) {
      PutInEmpty(Rest(key), v);
    }
  }

  /** Putting back what is there changes nothing. */
  lemma {:induction false} PutSame(m: Fields, key: string)
    requires Get(m, key).Ok?
    ensures Put(m, key, Get(m, key).value) == Ok(m)
    decreases |key|
  {
    if key in m {
      assert m[key := m[key]] == m;
    } else {
      PutSame(m[Base(key)].fields, Rest(key));
      assert m[Base(key) := m[Base(key)]] == m;
    }
  }

  /** The last of two values put under one key stays. */
  lemma {:induction false} PutTwice(m: Fields, key: string, v: Json, w: Json)
    requires Put(m, key, v).Ok?
    ensures Put(Put(m, key, v).value, key, w) == Put(m, key, w)
    decreases |key|
  {
    if key in m || !HasDot(key) {
      assert m[key := v][key := w] == m[key := w];
    } else {
      var k := Base(key);
      var sub := Below(m, k);
      PutBelow(m, key, v);
      PutBelow(m, key, w);
      PutTwice(sub, Rest(key), v, w);
      BaseIsPrefix(key);
      PutBelowTwice(m, key, w, Put(sub, Rest(key), v).value);
    }
  }

  /** The key of `m` itself whose value a Put under `key` sets. */
  function TopKey(m: Fields, key: string): string {
    if key in m || !HasDot(key) then key else Base(key)
  }

  lemma {:induction false} PutSetsTopKey(m: Fields, key: string, v: Json)
    requires Put(m, key, v).Ok?
    ensures var r := Put(m, key, v).value; TopKey(m, key) in r && r == m[TopKey(m, key) := r[TopKey(m, key)]]
  {
  }

  /** Setting another key of the map itself first makes no difference to a Put. */
  lemma PutBesideKey(m: Fields, key: string, v: Json, other: string, c: Json)
    requires Put(m, key, v).Ok? && other != key && other != TopKey(m, key)
    ensures Put(m[other := c], key, v) == Ok(Put(m, key, v).value[other := c])
  {
    var k := TopKey(m, key);
    var r := Put(m, key, v).value;
    PutSetsTopKey(m, key, v);
    assert m[other := c][k := r[k]] == r[other := c];
  }

  /** Puts under unrelated keys can be made in either order. */
  lemma {:induction false} PutsCommute(m: Fields, a: string, v: Json, b: string, w: Json)
    requires Unrelated(a, b) && Put(m, a, v).Ok? && Put(m, b, w).Ok?
    ensures Put(Put(m, a, v).value, b, w).Ok?
    ensures Put(Put(m, a, v).value, b, w) == Put(Put(m, b, w).value, a, v)
    decreases |a|, 1
  {
    var ka, kb := TopKey(m, a), TopKey(m, b);
    var x, y := Put(m, a, v).value, Put(m, b, w).value;
    PutSetsTopKey(m, a, v);
    PutSetsTopKey(m, b, w);
    OtherTopKey(m, a, b);
    OtherTopKey(m, b, a);
    if ka != kb {
      PutBesideKey(m, b, w, ka, x[ka]);
      PutBesideKey(m, a, v, kb, y[kb]);
      assert y[ka := x[ka]] == x[kb := y[kb]];
    } else {
      PutsCommuteBelow(m, a, v, b, w);
    }
  }

  lemma {:induction false} PutsCommuteBelow(m: Fields, a: string, v: Json, b: string, w: Json)
    requires Unrelated(a, b) && Put(m, a, v).Ok? && Put(m, b, w).Ok?
    requires a !in m && HasDot(a) && b !in m && HasDot(b) && Base(a) == Base(b)
    ensures Put(Put(m, a, v).value, b, w).Ok?
    ensures Put(Put(m, a, v).value, b, w) == Put(Put(m, b, w).value, a, v)
    decreases |a|, 0
  {
    var k := Base(a);
    UnrelatedRests(a, b);
    UnrelatedToBase(a, b);
    UnrelatedToBase(b, a);
    var sub := Below(m, k);
    PutBelow(m, a, v);
    PutBelow(m, b, w);
    PutsCommute(sub, Rest(a), v, Rest(b), w);
    var sa, sb := Put(sub, Rest(a), v).value, Put(sub, Rest(b), w).value;
    PutBelowTwice(m, b, w, sa);
    PutBelowTwice(m, a, v, sb);
  }

  lemma {:induction false} PutBelowTwice(m: Fields, key: string, v: Json, sub: Fields)
    requires key !in m && HasDot(key) && key != Base(key)
    ensures var r := Put(sub, Rest(key), v);
            Put(m[Base(key) := Object(sub)], key, v)
              == if r.Ok? then Ok(m[Base(key) := Object(r.value)]) else Err(r.error)
  {
    var k := Base(key);
    var m' := m[k := Object(sub)];
    PutBelow(m', key, v);
    var r := Put(sub, Rest(key), v);
    if r.Ok? {
      assert m'[k := Object(r.value)] == m[k := Object(r.value)];
    }
  }

  /** The map under `k`, empty when it is missing. */
  function Below(m: Fields, k: string): Fields {
    if k in m && m[k].Object? then m[k].fields else map[]
  }

  lemma {:induction false} PutBelow(m: Fields, key: string, v: Json)
    requires key !in m && HasDot(key) && (Base(key) in m ==> m[Base(key)].Object?)
    ensures var r := Put(Below(m, Base(key)), Rest(key), v);
            Put(m, key, v) == if r.Ok? then Ok(m[Base(key) := Object(r.value)]) else Err(r.error)
  {
  }

  lemma OtherTopKey(m: Fields, a: string, b: string)
    requires Unrelated(a, b)
    ensures TopKey(m, a) != b
    ensures TopKey(m, a) == TopKey(m, b) ==> a !in m && HasDot(a) && b !in m && HasDot(b)
  {
    if HasDot(a) {
      UnrelatedToBase(b, a);
    }
    if HasDot(b) {
      UnrelatedToBase(a, b);
    }
  }

  /** Delete does not touch what any unrelated key finds. */
  lemma {:induction false} DeleteFrame(m: Fields, key: string, other: string)
    requires Delete(m, key).Ok? && Unrelated(key, other)
    ensures Get(Delete(m, key).value, other) == Get(m, other)
    decreases |key|
  {
    if HasDot(other) {
      UnrelatedToBase(key, other);
    }
    if key !in m {
      UnrelatedToBase(other, key);
      if other !in m && HasDot(other) && Base(other) == Base(key) {
        UnrelatedRests(key, other);
        DeleteFrame(m[Base(key)].fields, Rest(key), Rest(other));
      }
    }
  }

  /** Delete fails exactly as Get does. */
  lemma {:induction false} DeleteFindsWhatGetFinds(m: Fields, key: string)
    ensures Delete(m, key).Ok? <==> Get(m, key).Ok?
    ensures Delete(m, key).Err? ==> Get(m, key) == Err(Delete(m, key).error)
    decreases |key|
  {
    if key !in m && HasDot(key) && Base(key) in m && m[Base(key)].Object? {
      DeleteFindsWhatGetFinds(m[Base(key)].fields, Rest(key));
    }
  }

  /** No key has a dot, at any depth of nested maps. */
  ghost predicate Nested(m: Fields)
    decreases Object(m)
  {
    forall k | k in m :: !HasDot(k) && (m[k].Object? ==> Nested(m[k].fields))
  }

  /** Without dotted keys, putting a deleted value back restores the map. */
  lemma {:induction false} DeleteThenPut(m: Fields, key: string)
    requires Nested(m) && Get(m, key).Ok?
    ensures Delete(m, key).Ok?
    ensures Get(Delete(m, key).value, key).Err?
    ensures Put(Delete(m, key).value, key, Get(m, key).value) == Ok(m)
    decreases |key|
  {
    if key in m {
      assert (m - {key})[key := m[key]] == m;
    } else {
      var k := Base(key);
      DeleteThenPut(m[k].fields, Rest(key));
      assert m[k := Object(Delete(m[k].fields, Rest(key)).value)][k := m[k]] == m;
    }
  }
}
