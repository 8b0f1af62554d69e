/** Where dotted keys lead, in terms of plain look-up by one name after the other. */
module MapPlaces {
  import opened DottedKeys
  import opened Options
  import opened Json
  import opened MapStr

  /** What stands where `names` lead, one by one through maps. */
  function Walk(v: Json, names: seq<string>): Option<Json>
    decreases |names|
  {
    if names == [] then Some(v)
    else if v.Object? && names[0] in v.fields then Walk(v.fields[names[0]], names[1..])
    else None
  }

  /** The names with dots between them. */
  function Joined(names: seq<string>): string
    requires names != []
    decreases |names|
  {
    if |names| == 1 then names[0] else names[0] + "." + Joined(names[1..])
  }

  /**
   * The names that a key is cut into: before each cut, what is left of the key is no name of the map there, and no
   * value other than a map is in the way.
   */
  predicate IsReading(m: Fields, names: seq<string>)
    decreases |names|
  {
    && names != []
    && if |names| == 1 then names[0] in m || !HasDot(names[0])
       else
         && Joined(names) !in m && !HasDot(names[0]) && (names[0] in m ==> m[names[0]].Object?)
         && IsReading(Below(m, names[0]), names[1..])
  }

  /** From `m` to `r` what stands where `names` lead becomes `v`, by maps on the way there, and nothing else changes. */
  ghost predicate Changed(m: Fields, r: Fields, names: seq<string>, v: Option<Json>) {
    && Walk(Object(r), names) == v
    && (forall i | 0 <= i < |names| :: IsMap(Walk(Object(r), names[..i])))
    && (forall other {:trigger Walk(Object(r), other)} | !(names <= other) && !(other <= names) ::
          Walk(Object(r), other) == Walk(Object(m), other))
  }

  predicate IsMap(v: Option<Json>) {
    v.Some? && v.value.Object?
  }

  /** `r` is `m` with `v` where `key` leads. */
  ghost predicate Stored(m: Fields, key: string, v: Json, r: Fields) {
    exists names :: IsReading(m, names) && Joined(names) == key && Changed(m, r, names, Some(v))
  }

  /** `r` is `m` without what stands where `key` leads. */
  ghost predicate Removed(m: Fields, key: string, r: Fields) {
    exists names ::
      && IsReading(m, names) && Joined(names) == key && Walk(Object(m), names).Some?
      && Changed(m, r, names, None)
  }

  // ----- Cutting keys

  lemma CutIs(key: string, b: string, rest: string)
    requires key == b + "." + rest && !HasDot(b)
    ensures HasDot(key) && Base(key) == b && Rest(key) == rest
  {
    assert forall i :: 0 <= i < |b| ==> key[i] == b[i] != '.';
    assert key[|b|] == '.';
    assert FirstDot(key) == |b|;
  }

  lemma {:induction false} ReadingGoesOn(m: Fields, names: seq<string>)
    requires IsReading(m, names) && |names| > 1
    ensures var key := Joined(names);
            && key !in m && HasDot(key) && Base(key) == names[0] && Rest(key) == Joined(names[1..]) && names[0] != key
  {
    CutIs(Joined(names), names[0], Joined(names[1..]));
  }

  /** Every key has a reading unless a value is in the way. */
  lemma {:induction false} ReadingOf(m: Fields, key: string) returns (names: seq<string>)
    requires Get(m, key) != Err(NotAMap)
    ensures IsReading(m, names) && Joined(names) == key
    decreases |key|
  {
    if key in m || !HasDot(key) {
      names := [key];
    } else {
      var rest := ReadingOf(Below(m, Base(key)), Rest(key));
      names := [Base(key)] + rest;
      assert names[1..] == rest;
      CutRebuilds(key);
    }
  }

  // ----- One map

  lemma {:induction false} WalkOn(v: Json, names: seq<string>, rest: seq<string>)
    ensures Walk(v, names + rest) == if Walk(v, names).Some? then Walk(Walk(v, names).value, rest) else None
    decreases |names|
  {
    if names == [] {
      assert names + rest == rest;
    } else {
      assert (names + rest)[1..] == names[1..] + rest;
      if v.Object? && names[0] in v.fields {
        WalkOn(v.fields[names[0]], names[1..], rest);
      }
    }
  }

  lemma WalkOne(m: Fields, k: string)
    ensures Walk(Object(m), [k]) == if k in m then Some(m[k]) else None
  {
    assert [k][1..] == [];
  }

  /** Nothing but the entry `k` of the map itself changes. */
  lemma ChangedHere(m: Fields, r: Fields, k: string)
    requires r - {k} == m - {k}
    ensures Changed(m, r, [k], if k in r then Some(r[k]) else None)
  {
    forall other {:trigger Walk(Object(r), other)} | !([k] <= other) && !(other <= [k])
      ensures Walk(Object(r), other) == Walk(Object(m), other)
    {
      var j := other[0];
      assert [j] <= other;
      assert j in r <==> j in r - {k};
      assert j in m <==> j in m - {k};
      if j in r {
        assert (r - {k})[j] == (m - {k})[j];
      }
    }
  }

  lemma {:induction false} WalkBelow(m: Fields, k: string, rest: seq<string>)
    requires rest != []
    ensures Walk(Object(m), [k] + rest) == Walk(Object(Below(m, k)), rest)
  {
    assert ([k] + rest)[1..] == rest;
  }

  /** Names that do not lead the same way still do not after a common first name. */
  lemma OtherWay(k: string, rest: seq<string>, other: seq<string>)
    ensures [k] + rest <= [k] + other <==> rest <= other
  {
    if [k] + rest <= [k] + other {
      forall i | 0 <= i < |rest| ensures rest[i] == other[i] {
        assert ([k] + rest)[i + 1] == ([k] + other)[i + 1];
      }
    }
  }

  /** A change in the map under `k` is a change in the map around it. */
  lemma ChangedAround(m: Fields, k: string, sub: Fields, rest: seq<string>, v: Option<Json>)
    requires rest != [] && Changed(Below(m, k), sub, rest, v)
    ensures Changed(m, m[k := Object(sub)], [k] + rest, v)
  {
    var names, r := [k] + rest, m[k := Object(sub)];
    assert Below(r, k) == sub;
    WalkBelow(r, k, rest);
    forall i | 0 <= i < |names| ensures IsMap(Walk(Object(r), names[..i])) {
      if i > 0 {
        assert names[..i] == [k] + rest[..i - 1];
        if i > 1 {
          WalkBelow(r, k, rest[..i - 1]);
        }
      }
    }
    forall other {:trigger Walk(Object(r), other)} | !(names <= other) && !(other <= names)
      ensures Walk(Object(r), other) == Walk(Object(m), other)
    {
      if other[0] == k {
        assert other == [k] + other[1..];
        OtherWay(k, rest, other[1..]);
        OtherWay(k, other[1..], rest);
        WalkBelow(r, k, other[1..]);
        WalkBelow(m, k, other[1..]);
      }
    }
  }

  /** And the other way round. */
  lemma ChangedInside(m: Fields, r: Fields, k: string, rest: seq<string>, v: Option<Json>)
    requires rest != [] && Changed(m, r, [k] + rest, v)
    ensures k in r && r[k].Object? && Changed(Below(m, k), r[k].fields, rest, v)
  {
    var names := [k] + rest;
    assert names[..1] == [k];
    assert IsMap(Walk(Object(r), names[..1]));
    WalkOne(r, k);
    assert Below(r, k) == r[k].fields;
    WalkBelow(r, k, rest);
    forall i | 0 <= i < |rest| ensures IsMap(Walk(Object(r[k].fields), rest[..i])) {
      assert names[..i + 1] == [k] + rest[..i];
      assert IsMap(Walk(Object(r), names[..i + 1]));
      if i > 0 {
        WalkBelow(r, k, rest[..i]);
      }
    }
    forall other {:trigger Walk(Object(r[k].fields), other)} | !(rest <= other) && !(other <= rest)
      ensures Walk(Object(r[k].fields), other) == Walk(Object(Below(m, k)), other)
    {
      OtherWay(k, rest, other);
      OtherWay(k, other, rest);
      WalkBelow(r, k, other);
      WalkBelow(m, k, other);
      assert Walk(Object(r), [k] + other) == Walk(Object(m), [k] + other);
    }
  }

  /** There is only one way to change what stands at a place. */
  lemma {:induction false} ChangedOnce(m: Fields, r: Fields, r': Fields, names: seq<string>, v: Option<Json>)
    requires names != [] && Changed(m, r, names, v) && Changed(m, r', names, v)
    ensures r == r'
    decreases |names|
  {
    var k, rest := names[0], names[1..];
    assert names == [k] + rest;
    forall j | j != k ensures Walk(Object(r), [j]) == Walk(Object(r'), [j]) {
      assert !(names <= [j]) && !([j] <= names);
      assert Walk(Object(r), [j]) == Walk(Object(m), [j]);
      assert Walk(Object(r'), [j]) == Walk(Object(m), [j]);
    }
    if rest != [] {
      ChangedInside(m, r, k, rest, v);
      ChangedInside(m, r', k, rest, v);
      ChangedOnce(Below(m, k), r[k].fields, r'[k].fields, rest, v);
    }
    WalkOne(r, k);
    WalkOne(r', k);
    SameEntries(r, r', k);
  }

  lemma SameEntries(r: Fields, r': Fields, k: string)
    requires forall j | j != k :: Walk(Object(r), [j]) == Walk(Object(r'), [j])
    requires k in r <==> k in r'
    requires k in r ==> r[k] == r'[k]
    ensures r == r'
  {
    forall j ensures j in r <==> j in r'
             ensures j in r ==> r[j] == r'[j]
    {
      if j != k {
        WalkOne(r, j);
        WalkOne(r', j);
        assert Walk(Object(r), [j]) == Walk(Object(r'), [j]);
      }
    }
  }

  // ----- What the operations do

  lemma {:induction false} GetAt(m: Fields, names: seq<string>)
    requires IsReading(m, names)
    ensures var found := Walk(Object(m), names);
            Get(m, Joined(names)) == if found.Some? then Ok(found.value) else Err(KeyNotFound)
    decreases |names|
  {
    if |names| > 1 {
      ReadingGoesOn(m, names);
      GetAt(Below(m, names[0]), names[1..]);
      if names[0] !in m {
        assert Walk(Object(map[]), names[1..]) == None;
      }
    }
  }

  lemma {:induction false} PutAt(m: Fields, names: seq<string>, v: Json)
    requires IsReading(m, names)
    ensures Put(m, Joined(names), v).Ok? && Changed(m, Put(m, Joined(names), v).value, names, Some(v))
    decreases |names|
  {
    var k := names[0];
    if |names| == 1 {
      assert names == [k] && m[k := v] - {k} == m - {k};
      ChangedHere(m, m[k := v], k);
    } else {
      ReadingGoesOn(m, names);
      PutAt(Below(m, k), names[1..], v);
      PutBelow(m, Joined(names), v);
      assert names == [k] + names[1..];
      ChangedAround(m, k, Put(Below(m, k), Joined(names[1..]), v).value, names[1..], Some(v));
    }
  }

  lemma {:induction false} DeleteAt(m: Fields, names: seq<string>)
    requires IsReading(m, names) && Walk(Object(m), names).Some?
    ensures Delete(m, Joined(names)).Ok? && Changed(m, Delete(m, Joined(names)).value, names, None)
    decreases |names|
  {
    var k := names[0];
    if |names| == 1 {
      assert names == [k] && m - {k} - {k} == m - {k};
      ChangedHere(m, m - {k}, k);
    } else {
      ReadingGoesOn(m, names);
      DeleteAt(Below(m, k), names[1..]);
      assert names == [k] + names[1..];
      ChangedAround(m, k, Delete(Below(m, k), Joined(names[1..])).value, names[1..], None);
    }
  }

  /** Get finds a value exactly where the names that the key is read as lead to it. */
  lemma {:induction false} GetExactly(m: Fields, key: string, v: Json)
    ensures Get(m, key) == Ok(v)
       <==> exists names :: IsReading(m, names) && Joined(names) == key && Walk(Object(m), names) == Some(v)
  {
    if Get(m, key) == Ok(v) {
      var names := ReadingOf(m, key);
      GetAt(m, names);
    }
    if names :| IsReading(m, names) && Joined(names) == key && Walk(Object(m), names) == Some(v) {
      GetAt(m, names);
    }
  }

  /** A value is in the way exactly if the key cannot be read. */
  lemma {:induction false} InTheWayExactly(m: Fields, key: string)
    ensures Get(m, key) == Err(NotAMap) <==> !exists names :: IsReading(m, names) && Joined(names) == key
  {
    if Get(m, key) != Err(NotAMap) {
      var names := ReadingOf(m, key);
    }
    if names :| IsReading(m, names) && Joined(names) == key {
      GetAt(m, names);
    }
  }

  /** Put gives the map that has the value where the key leads, and is the same otherwise. */
  lemma {:induction false} PutExactly(m: Fields, key: string, v: Json, r: Fields)
    ensures Put(m, key, v) == Ok(r) <==> Stored(m, key, v, r)
  {
    PutFails(m, key, v);
    if Put(m, key, v) == Ok(r) {
      var names := ReadingOf(m, key);
      PutAt(m, names, v);
    }
    if Stored(m, key, v, r) {
      var names :| IsReading(m, names) && Joined(names) == key && Changed(m, r, names, Some(v));
      PutAt(m, names, v);
      ChangedOnce(m, r, Put(m, key, v).value, names, Some(v));
    }
  }

  /** Delete gives the map that has nothing where the key led, and is the same otherwise. */
  lemma {:induction false} DeleteExactly(m: Fields, key: string, r: Fields)
    ensures Delete(m, key) == Ok(r) <==> Removed(m, key, r)
    ensures Delete(m, key) == Ok(r) && key in m ==> key !in r
  {
    DeleteFindsWhatGetFinds(m, key);
    if Delete(m, key) == Ok(r) {
      var names := ReadingOf(m, key);
      GetAt(m, names);
      DeleteAt(m, names);
    }
    if Removed(m, key, r) {
      var names :| && IsReading(m, names) && Joined(names) == key && Walk(Object(m), names).Some?
                   && Changed(m, r, names, None);
      DeleteAt(m, names);
      ChangedOnce(m, r, Delete(m, key).value, names, None);
    }
  }
}
