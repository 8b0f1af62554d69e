/** What the validator does not look at: leaves whose values make no difference to what is reported. */
module MappingsOverlooked {
  import opened DottedKeys
  import opened Options
  import opened Mappings
  import opened MappingsSoundness

  /** Parameters beside `properties` that decide how an object is compared, though nothing compares them. */
  function Selecting(s: Spot): set<string> {
    if s.preview.None? then {"type", "fields"}
    else if IsNew(s) then {"type", "fields", "dynamic", "value"}
    else {"type", "dynamic", "value"}
  }

  /** The way to the leaf turns off beside `properties`. */
  predicate BesideProperties(s: Spot, k: string) {
    !s.names && s.actual.Object? && IsObject(s.actual.fields) && k != "properties"
  }

  /** The leaf is a bare value among names that the preview does not have. */
  predicate BareNewName(s: Spot, k: string) {
    s.names && s.preview.None? && s.actual.Object? && k in s.actual.fields && !s.actual.fields[k].Object?
  }

  /** Nothing is compared with this leaf, and no choice depends on it. */
  ghost predicate Overlooked(s: Spot, keys: seq<string>)
    requires AnyLeaf(s.actual, keys)
    decreases |keys|
  {
    && keys != [] && !Whole(s)
    && if BesideProperties(s, keys[0]) then keys[0] !in Selecting(s) || |keys| > 1
       else BareNewName(s, keys[0]) || Overlooked(Step(s, keys[0]), keys[1..])
  }

  /** The leaf is such a parameter beside `properties`. */
  ghost predicate Selects(s: Spot, keys: seq<string>)
    requires AnyLeaf(s.actual, keys)
    decreases |keys|
  {
    && keys != [] && !Whole(s)
    && if BesideProperties(s, keys[0]) then keys[0] in Selecting(s) && |keys| == 1
       else !BareNewName(s, keys[0]) && Selects(Step(s, keys[0]), keys[1..])
  }

  /** The leaves that are not looked at are the overlooked ones and those that decide how an object is compared. */
  lemma {:induction false} LookedAtOrOverlooked(s: Spot, keys: seq<string>)
    requires AnyLeaf(s.actual, keys)
    ensures !Followed(s, keys) <==> Overlooked(s, keys) || Selects(s, keys)
    ensures !(Overlooked(s, keys) && Selects(s, keys))
    decreases |keys|
  {
    if keys != [] && !Whole(s) && !BesideProperties(s, keys[0]) && !BareNewName(s, keys[0]) {
      LookedAtOrOverlooked(Step(s, keys[0]), keys[1..]);
    }
  }

  /** The value with `x` where `keys` leads. */
  function Replace(value: Value, keys: seq<string>, x: Value): (r: Value)
    requires AnyLeaf(value, keys)
    ensures keys != [] ==> r.Object? && r.fields.Keys == value.fields.Keys
    decreases |keys|
  {
    if keys == [] then x
    else Object(value.fields[keys[0] := Replace(value.fields[keys[0]], keys[1..], x)])
  }

  // ----- One entry

  /** An object in place of an object, under any key. */
  lemma SameShape(d: Definition, k: string, y: Value)
    requires k in d && d[k].Object? && y.Object? && (d[k].fields == map[] <==> y.fields == map[])
    ensures var d' := d[k := y];
            && (forall field :: Parameter(field, d') == Parameter(field, d))
            && IsObject(d') == IsObject(d) && IsMultiFields(d') == IsMultiFields(d)
            && IsEmptyObject(d') == IsEmptyObject(d) && IsObjectFullyDynamic(d') == IsObjectFullyDynamic(d)
  {
    var d' := d[k := y];
    assert d'.Keys == d.Keys;
    assert |d'| == |d'.Keys| == |d|;
  }

  lemma {:induction false} ReplacedStaysObject(d: Definition, keys: seq<string>, x: Value)
    requires AnyLeaf(Object(d), keys) && IsObject(d) && !x.Object?
    ensures IsObject(Replace(Object(d), keys, x).fields)
  {
    if keys[0] == "properties" {
      assert keys[1..] != [];
    }
  }

  /** Properties are compared one by one. */
  lemma SamePropertiesErrors(v: Validator, path: Path, multi: bool, preview: Definition, d: Definition, k: string,
                             y: Value, t: Templates)
    requires k in d
    requires PropertyErrors(v, path, multi, preview, d[k := y], k, t)
          == PropertyErrors(v, path, multi, preview, d, k, t)
    ensures PropertiesErrors(v, path, multi, preview, d[k := y], t) == PropertiesErrors(v, path, multi, preview, d, t)
  {
    var d' := d[k := y];
    assert forall k' | k' in d && k' != k ::
        PropertyErrors(v, path, multi, preview, d', k', t) == PropertyErrors(v, path, multi, preview, d, k', t);
  }

  /** Replacing an object makes no difference for its key if it makes none to what is looked at there. */
  lemma SamePropertyErrors(v: Validator, path: Path, multi: bool, preview: Definition, d: Definition, k: string,
                           y: Value, t: Templates)
    requires k in d && d[k].Object? && y.Object?
    requires k !in preview ==> !IsEmptyObject(d[k].fields) && !IsEmptyObject(y.fields)
                               && Flattened(Under(path, k), y.fields) == Flattened(Under(path, k), d[k].fields)
    requires k in preview && preview[k].Object? ==>
               CompareErrors(v, Under(path, k), true, preview[k].fields, y.fields, t)
               == CompareErrors(v, Under(path, k), true, preview[k].fields, d[k].fields, t)
    ensures PropertyErrors(v, path, multi, preview, d[k := y], k, t) == PropertyErrors(v, path, multi, preview, d, k, t)
  {
  }

  /** Replacing `properties` makes no difference if it makes none to what is looked at there. */
  lemma SameBelowProperties(v: Validator, path: Path, preview: Definition, d: Definition, y: Value, t: Templates)
    requires IsObject(d) && y.Object? && y.fields.Keys == d["properties"].fields.Keys != {}
    requires var d' := d["properties" := y];
             if IsObjectFullyDynamic(preview) || (!IsObject(preview) && AllowsDynamicChildren(preview, d)) then
               Flattened(path, d') == Flattened(path, d)
             else
               IsObject(preview) ==>
                 CompareErrors(v, path, false, preview["properties"].fields, y.fields, t)
                 == CompareErrors(v, path, false, preview["properties"].fields, d["properties"].fields, t)
    ensures CompareErrors(v, path, true, preview, d["properties" := y], t)
         == CompareErrors(v, path, true, preview, d, t)
  {
    SameShape(d, "properties", y);
  }

  /** Replacing multi-fields likewise. */
  lemma SameBelowFields(v: Validator, path: Path, parameters: bool, preview: Definition, d: Definition, y: Value,
                        t: Templates)
    requires IsMultiFields(d) && !(parameters && IsObject(d))
    requires y.Object? && y.fields.Keys == d["fields"].fields.Keys != {}
    requires IsMultiFields(preview) ==>
               CompareErrors(v, path, false, preview["fields"].fields, y.fields, t)
               == CompareErrors(v, path, false, preview["fields"].fields, d["fields"].fields, t)
    ensures CompareErrors(v, path, parameters, preview, d["fields" := y], t)
         == CompareErrors(v, path, parameters, preview, d, t)
  {
    SameShape(d, "fields", y);
    SamePropertiesErrors(v, path, true, preview, d, "fields", y, t);
  }

  /** Replacing any other property likewise. */
  lemma SameProperty(v: Validator, path: Path, parameters: bool, preview: Definition, d: Definition, k: string,
                     y: Value, t: Templates)
    requires !(parameters && IsObject(d)) && k in d && !(IsMultiFields(d) && k == "fields")
    requires d[k].Object? && y.Object? && y.fields.Keys == d[k].fields.Keys != {}
    requires PropertyErrors(v, path, IsMultiFields(d), preview, d[k := y], k, t)
          == PropertyErrors(v, path, IsMultiFields(d), preview, d, k, t)
    ensures CompareErrors(v, path, parameters, preview, d[k := y], t)
         == CompareErrors(v, path, parameters, preview, d, t)
  {
    SameShape(d, k, y);
    SamePropertiesErrors(v, path, IsMultiFields(d), preview, d, k, y, t);
  }

  /** Replacing one of the new fields likewise. */
  lemma SameFlattened(path: Path, d: Definition, k: string, y: Value)
    requires IsObject(d) && k in d["properties"].fields && !IsMultiFields(d)
    requires var was := d["properties"].fields[k];
             && y.Object? == was.Object?
             && (y.Object? ==> Flattened(Under(path, k), y.fields) == Flattened(Under(path, k), was.fields))
    ensures Flattened(path, d["properties" := Object(d["properties"].fields[k := y])]) == Flattened(path, d)
  {
    var props := d["properties"].fields;
    var props' := props[k := y];
    SameShape(d, "properties", Object(props'));
    assert props'.Keys == props.Keys;
    forall j | j in props
      ensures props'[j].Object? == props[j].Object?
      ensures props[j].Object? ==>
                Flattened(Under(path, j), props'[j].fields) == Flattened(Under(path, j), props[j].fields)
    {
      assert j != k ==> props'[j] == props[j];
    }
  }

  // ----- What is overlooked does not matter

  /** A new definition is flattened to the same definitions. */
  lemma {:induction false} OverlookedIsNotFlattened(s: Spot, keys: seq<string>, x: Value)
    requires !s.names && IsNew(s) && s.actual.Object? && !x.Object?
    requires AnyLeaf(s.actual, keys) && Overlooked(s, keys)
    ensures Flattened(s.path, Replace(s.actual, keys, x).fields) == Flattened(s.path, s.actual.fields)
    decreases |keys|
  {
    var d := s.actual.fields;
    if keys[0] == "properties" {
      var s', rest := Step(s, "properties"), keys[1..];
      assert AnyLeaf(s'.actual, rest) && Overlooked(s', rest);
      var props, k := d["properties"].fields, rest[0];
      var props' := Replace(d["properties"], rest, x).fields;
      assert props' == props[k := Replace(props[k], rest[1..], x)];
      if props[k].Object? {
        assert Step(s', k) == Spot(Under(s.path, k), false, None, props[k]);
        assert Overlooked(Step(s', k), rest[1..]);
        OverlookedIsNotFlattened(Step(s', k), rest[1..], x);
      }
      SameFlattened(s.path, d, k, Replace(props[k], rest[1..], x));
    }
  }

  /** The way goes on through an object, which stays one of the same kind. */
  lemma {:induction false} OverlookedGoesOn(s: Spot, keys: seq<string>, x: Value)
    requires s.preview.Some? && s.actual.Object? && AnyLeaf(s.actual, keys) && Overlooked(s, keys)
    requires !BesideProperties(s, keys[0])
    ensures var k, rest, d := keys[0], keys[1..], s.actual.fields;
            && d[k].Object? && AnyLeaf(d[k], rest) && Step(s, k).actual == d[k] && Overlooked(Step(s, k), rest)
            && Replace(d[k], rest, x).Object? && Replace(d[k], rest, x).fields.Keys == d[k].fields.Keys != {}
  {
    var k, rest := keys[0], keys[1..];
    assert Overlooked(Step(s, k), rest);
    assert rest[0] in s.actual.fields[k].fields;
  }

  lemma {:induction false} OverlookedBeside(v: Validator, t: Templates, s: Spot, keys: seq<string>, x: Value)
    requires s.preview.Some? && s.preview.value.Object? && s.actual.Object? && !x.Object?
    requires AnyLeaf(s.actual, keys) && Overlooked(s, keys) && BesideProperties(s, keys[0])
    ensures CompareErrors(v, s.path, true, s.preview.value.fields, Replace(s.actual, keys, x).fields, t)
         == CompareErrors(v, s.path, true, s.preview.value.fields, s.actual.fields, t)
  {
    var d, d', k := s.actual.fields, Replace(s.actual, keys, x).fields, keys[0];
    if |keys| > 1 {
      assert keys[1..][0] in d[k].fields && keys[1..][0] in d'[k].fields;
      SameShape(d, k, d'[k]);
    }
    if IsNew(s) {
      OverlookedIsNotFlattened(s, keys, x);
    }
  }

  /** Any other value in place of an overlooked one leaves what is reported the same. */
  lemma {:induction false} OverlookedDoesNotMatter(v: Validator, t: Templates, s: Spot, keys: seq<string>, x: Value)
    requires s.preview.Some? && s.preview.value.Object? && s.actual.Object? && !x.Object?
    requires AnyLeaf(s.actual, keys) && Overlooked(s, keys)
    ensures CompareErrors(v, s.path, !s.names, s.preview.value.fields, Replace(s.actual, keys, x).fields, t)
         == CompareErrors(v, s.path, !s.names, s.preview.value.fields, s.actual.fields, t)
    decreases |keys|
  {
    var p, d, k, rest := s.preview.value.fields, s.actual.fields, keys[0], keys[1..];
    if BesideProperties(s, k) {
      OverlookedBeside(v, t, s, keys, x);
    } else {
      OverlookedGoesOn(s, keys, x);
      var y := Replace(d[k], rest, x);
      if !s.names && IsObject(d) {
        if IsNew(s) {
          OverlookedIsNotFlattened(s, keys, x);
        } else if IsObject(p) {
          OverlookedDoesNotMatter(v, t, Step(s, k), rest, x);
        }
        SameBelowProperties(v, s.path, p, d, y, t);
      } else if IsMultiFields(d) && k == "fields" {
        if IsMultiFields(p) {
          OverlookedDoesNotMatter(v, t, Step(s, k), rest, x);
        }
        SameBelowFields(v, s.path, !s.names, p, d, y, t);
      } else {
        OverlookedProperty(v, t, s, keys, x);
        SameProperty(v, s.path, !s.names, p, d, k, y, t);
      }
    }
  }

  lemma {:induction false} OverlookedProperty(v: Validator, t: Templates, s: Spot, keys: seq<string>, x: Value)
    requires s.preview.Some? && s.preview.value.Object? && s.actual.Object? && !x.Object?
    requires AnyLeaf(s.actual, keys) && Overlooked(s, keys)
    requires s.names || !IsObject(s.actual.fields)
    requires !(IsMultiFields(s.actual.fields) && keys[0] == "fields")
    ensures var multi, p, d, d' := IsMultiFields(s.actual.fields), s.preview.value.fields, s.actual.fields,
                                   Replace(s.actual, keys, x).fields;
            PropertyErrors(v, s.path, multi, p, d', keys[0], t) == PropertyErrors(v, s.path, multi, p, d, keys[0], t)
    decreases |keys|, 0
  {
    var p, d, k, rest := s.preview.value.fields, s.actual.fields, keys[0], keys[1..];
    OverlookedGoesOn(s, keys, x);
    var s' := Step(s, k);
    assert s' == Spot(Under(s.path, k), false, PreviewAt(s.preview, k), d[k]);
    if k !in p {
      OverlookedNewProperty(s', rest, x);
    } else if p[k].Object? {
      OverlookedDoesNotMatter(v, t, s', rest, x);
    }
    SamePropertyErrors(v, s.path, IsMultiFields(d), p, d, k, Replace(d[k], rest, x), t);
  }

  lemma {:induction false} OverlookedNewProperty(s: Spot, keys: seq<string>, x: Value)
    requires !s.names && s.preview.None? && s.actual.Object? && !x.Object?
    requires AnyLeaf(s.actual, keys) && Overlooked(s, keys)
    ensures var d, d' := s.actual.fields, Replace(s.actual, keys, x).fields;
            !IsEmptyObject(d) && !IsEmptyObject(d') && Flattened(s.path, d') == Flattened(s.path, d)
  {
    ReplacedStaysObject(s.actual.fields, keys, x);
    ObjectIsNotEmpty(s.actual.fields);
    ObjectIsNotEmpty(Replace(s.actual, keys, x).fields);
    OverlookedIsNotFlattened(s, keys, x);
  }

  // ----- What decides is not compared

  /** Objects with the same properties are compared alike, whatever else they hold, if neither is a special case. */
  lemma {:induction false} SamePropertiesSameErrors(v: Validator, path: Path, preview: Definition, d': Definition,
                                                    d: Definition, t: Templates)
    requires IsObject(d) && IsObject(d') && d'["properties"] == d["properties"]
    requires !IsConstantKeyword(d) && !IsConstantKeyword(d')
    requires !IsObjectFullyDynamic(d) && !IsObjectFullyDynamic(d')
    requires IsObject(preview) && !IsObjectFullyDynamic(preview)
    ensures CompareErrors(v, path, true, preview, d', t) == CompareErrors(v, path, true, preview, d, t)
  {
  }

  /** So an object is accepted in place of a nested object: its leaf `type` differs, and nothing accounts for it. */
  lemma {:induction false} TypeOfAnObjectIsNotCompared(v: Validator, path: Path, props: Definition, t: Templates)
    requires path !in v.exceptions
    ensures var preview := map["type" := Str("nested"), "properties" := Object(props)];
            var actual := map["type" := Str("object"), "properties" := Object(props)];
            var s := Spot(path, false, Some(Object(preview)), Object(actual));
            && (CompareErrors(v, path, true, preview, actual, t) == {} <==> !ComparesList(v, path, false, props))
            && AnyLeaf(s.actual, ["type"]) && !Explained(v, t, s, ["type"])
  {
    var preview := map["type" := Str("nested"), "properties" := Object(props)];
    var actual := map["type" := Str("object"), "properties" := Object(props)];
    var s := Spot(path, false, Some(Object(preview)), Object(actual));
    SamePropertiesSameErrors(v, path, preview, actual, preview, t);
    CompareWithItself(v, path, true, preview, t);
    assert ComparesList(v, path, true, preview) == ComparesList(v, path, false, props);
    assert !Justified(v, t, s) && !GoesOn(s, "type");
  }
}
