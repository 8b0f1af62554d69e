/** Merging one nested map into another. */
module DeepUpdate {
  import opened Json
  import opened MapPlaces
  import opened MapStr

  /** The merge of `d` into `m`, key by key and recursively where both hold maps. */
  function Update(m: Fields, d: Fields, overwrite: bool): Fields
    decreases Object(d), 1
  {
    map k | k in m.Keys + d.Keys :: if k in d then UpdateEntry(m, d, k, overwrite) else m[k]
  }

  function UpdateEntry(m: Fields, d: Fields, k: string, overwrite: bool): Json
    requires k in d
    decreases Object(d), 0
  {
    if d[k].Object? then
      if k in m && m[k].Object? then Object(Update(m[k].fields, d[k].fields, overwrite)) else d[k]
    else if overwrite || k !in m then d[k]
    else m[k]
  }

  // ----- Laws

  /** At every place that both lead to by maps: what only one of them has stays or is added, maps are merged, and of
      two other values the one comes first that `overwrite` says; a map takes the place of a value in any case. */
  lemma {:induction false} MergedAt(m: Fields, d: Fields, overwrite: bool, names: seq<string>)
    requires names != []
    requires forall i | 0 <= i < |names| :: IsMap(Walk(Object(m), names[..i])) && IsMap(Walk(Object(d), names[..i]))
    ensures var a, b := Walk(Object(m), names), Walk(Object(d), names);
            var r := Walk(Object(Update(m, d, overwrite)), names);
            if a.None? then r == b
            else if b.None? then r == a
            else if IsMap(a) && IsMap(b) then IsMap(r)
            else r == if IsMap(b) || overwrite then b else a
    decreases |names|
  {
    var k, rest := names[0], names[1..];
    assert names == [k] + rest;
    if rest == [] {
      WalkOne(m, k);
      WalkOne(d, k);
      WalkOne(Update(m, d, overwrite), k);
    } else {
      assert names[..1] == [k];
      WalkOne(m, k);
      WalkOne(d, k);
      assert IsMap(Walk(Object(m), names[..1])) && IsMap(Walk(Object(d), names[..1]));
      forall i | 0 <= i < |rest|
        ensures IsMap(Walk(m[k], rest[..i])) && IsMap(Walk(d[k], rest[..i]))
      {
        assert names[..i + 1] == [k] + rest[..i] && names[..i + 1][1..] == rest[..i];
        assert IsMap(Walk(Object(m), names[..i + 1])) && IsMap(Walk(Object(d), names[..i + 1]));
      }
      MergedAt(m[k].fields, d[k].fields, overwrite, rest);
    }
  }

  /** Everything that is not a map in `m` is found at the same place in `r`, and every map of `m` is a map there. */
  ghost predicate Keeps(m: Fields, r: Fields)
    decreases Object(m)
  {
    forall k | k in m :: k in r &&
      if m[k].Object? then r[k].Object? && Keeps(m[k].fields, r[k].fields) else r[k] == m[k]
  }

  /** Somewhere `m` has a value that is not a map where `d` has a map. */
  ghost predicate Clash(m: Fields, d: Fields)
    decreases Object(m)
  {
    exists k | k in m && k in d ::
      d[k].Object? && (!m[k].Object? || Clash(m[k].fields, d[k].fields))
  }

  lemma {:induction false} KeepsReflexive(m: Fields)
    ensures Keeps(m, m)
    decreases Object(m)
  {
    forall k | k in m && m[k].Object? ensures Keeps(m[k].fields, m[k].fields) {
      KeepsReflexive(m[k].fields);
    }
  }

  /** Merging with overwriting keeps all that is merged in. */
  lemma {:induction false} OverwritingTakesAll(m: Fields, d: Fields)
    ensures Keeps(d, Update(m, d, true))
    decreases Object(d)
  {
    forall k | k in d && d[k].Object?
      ensures var r := Update(m, d, true); r[k].Object? && Keeps(d[k].fields, r[k].fields)
    {
      if k in m && m[k].Object? {
        OverwritingTakesAll(m[k].fields, d[k].fields);
      } else {
        KeepsReflexive(d[k].fields);
      }
    }
  }

  /** Merging without overwriting keeps what was there exactly when no value would have to become a map. */
  lemma {:induction false} NotOverwritingKeeps(m: Fields, d: Fields)
    ensures Keeps(m, Update(m, d, false)) <==> !Clash(m, d)
    decreases Object(m)
  {
    var r := Update(m, d, false);
    forall k | k in m
      ensures (if m[k].Object? then r[k].Object? && Keeps(m[k].fields, r[k].fields) else r[k] == m[k])
        <==> !(k in d && d[k].Object? && (!m[k].Object? || Clash(m[k].fields, d[k].fields)))
    {
      assert r[k] == if k in d then UpdateEntry(m, d, k, false) else m[k];
      if m[k].Object? {
        if k in d && d[k].Object? {
          NotOverwritingKeeps(m[k].fields, d[k].fields);
        } else {
          KeepsReflexive(m[k].fields);
        }
      }
    }
  }

  /** A map takes the place of a value even when nothing is to be overwritten. */
  lemma MapReplacesValue(k: string, val: Json, f: Fields)
    requires !val.Object?
    ensures var m, d := map[k := val], map[k := Object(f)];
            Update(m, d, false) == d && !Keeps(m, Update(m, d, false))
  {
    var m, d := map[k := val], map[k := Object(f)];
    assert Update(m, d, false)[k] == UpdateEntry(m, d, k, false) == d[k];
    assert m[k] == val;
  }

  /** Not overwriting is overwriting the other way round, exactly when there is no clash. */
  lemma {:induction false} NotOverwritingIsDual(m: Fields, d: Fields)
    ensures Update(m, d, false) == Update(d, m, true) <==> !Clash(m, d)
    decreases Object(m)
  {
    var a, b := Update(m, d, false), Update(d, m, true);
    assert a.Keys == b.Keys;
    forall k | k in m && k in d
      ensures a[k] == b[k] <==> !(d[k].Object? && (!m[k].Object? || Clash(m[k].fields, d[k].fields)))
    {
      assert a[k] == UpdateEntry(m, d, k, false) && b[k] == UpdateEntry(d, m, k, true);
      if m[k].Object? && d[k].Object? {
        NotOverwritingIsDual(m[k].fields, d[k].fields);
      }
    }
    if !Clash(m, d) {
      forall k | k in a ensures a[k] == b[k] {
        if k in m && k !in d {
          assert b[k] == UpdateEntry(d, m, k, true);
        } else if k in d && k !in m {
          assert a[k] == UpdateEntry(m, d, k, false);
        }
      }
    }
  }

  /** Merging the same map in twice is merging it in once. */
  lemma {:induction false} UpdateIsIdempotent(m: Fields, d: Fields, overwrite: bool)
    ensures Update(Update(m, d, overwrite), d, overwrite) == Update(m, d, overwrite)
    decreases Object(d)
  {
    var r := Update(m, d, overwrite);
    var rr := Update(r, d, overwrite);
    assert rr.Keys == r.Keys;
    forall k | k in r ensures rr[k] == r[k] {
      assert k in d ==> rr[k] == UpdateEntry(r, d, k, overwrite) && r[k] == UpdateEntry(m, d, k, overwrite);
      if k in d && d[k].Object? {
        if k in m && m[k].Object? {
          UpdateIsIdempotent(m[k].fields, d[k].fields, overwrite);
        } else {
          UpdateSelf(d[k].fields, overwrite);
        }
      }
    }
  }

  lemma {:induction false} UpdateSelf(m: Fields, overwrite: bool)
    ensures Update(m, m, overwrite) == m
    decreases Object(m)
  {
    var r := Update(m, m, overwrite);
    assert r.Keys == m.Keys;
    forall k | k in m ensures r[k] == m[k] {
      assert r[k] == UpdateEntry(m, m, k, overwrite);
      if m[k].Object? {
        UpdateSelf(m[k].fields, overwrite);
      }
    }
  }
}
