/** Removing fields from a mapping brings no new errors. */
module MappingsPruning {
  import opened DottedKeys
  import opened Mappings

  /** `d'` is `d` with fields removed from its properties and its multi-fields, at any depth. */
  ghost predicate PrunedDefinition(d': Definition, d: Definition)
    decreases Object(d), 1
  {
    d'.Keys == d.Keys && forall k | k in d :: PrunedParameter(d'[k], d, k)
  }

  ghost predicate PrunedParameter(value: Value, d: Definition, k: string)
    requires k in d
    decreases Object(d), 0
  {
    if d[k].Object? && (k == "properties" || (k == "fields" && IsMultiFields(d)))
    then value.Object? && PrunedFields(value.fields, d[k].fields)
    else value == d[k]
  }

  /** `m'` has some of the entries of `m`, those that are objects pruned. Where `m` reads as a field, with a bare
      string named `type`, the entries that decide how it is compared stay. */
  ghost predicate PrunedFields(m': Definition, m: Definition)
    decreases Object(m), 2
  {
    && m'.Keys <= m.Keys && KeepsKind(m', m)
    && forall k | k in m' :: PrunedEntry(m'[k], m, k)
  }

  ghost predicate PrunedEntry(value: Value, m: Definition, k: string)
    requires k in m
    decreases Object(m), 1
  {
    if m[k].Object? && !(k == "fields" && IsMultiFields(m))
    then value.Object? && PrunedDefinition(value.fields, m[k].fields)
    else value == m[k]
  }

  predicate KeepsKind(m': Definition, m: Definition) {
    && Parameter("type", m') == Parameter("type", m)
    && (IsMultiFields(m) ==> "fields" in m')
    && (IsConstantKeyword(m) ==> Parameter("value", m') == Parameter("value", m))
    && (IsObjectFullyDynamic(m) ==> Parameter("dynamic", m') == Parameter("dynamic", m))
  }

  // ----- What pruning does not change

  lemma {:induction false} PrunedKeepsParameter(d': Definition, d: Definition, field: string)
    requires PrunedDefinition(d', d)
    ensures Parameter(field, d') == Parameter(field, d)
  {
    if field in d {
      assert PrunedParameter(d'[field], d, field);
    }
  }

  lemma {:induction false} PrunedKeepsShape(d': Definition, d: Definition)
    requires PrunedDefinition(d', d)
    ensures IsObject(d') == IsObject(d) && IsMultiFields(d') == IsMultiFields(d)
    ensures IsEmptyObject(d') == IsEmptyObject(d)
    ensures IsConstantKeyword(d') == IsConstantKeyword(d)
    ensures IsObjectFullyDynamic(d) ==> IsObjectFullyDynamic(d')
  {
    PrunedKeepsParameter(d', d, "type");
    PrunedKeepsParameter(d', d, "dynamic");
    if "properties" in d {
      assert PrunedParameter(d'["properties"], d, "properties");
      if d["properties"].Object? && d["properties"].fields == map[] {
        assert PrunedFields(d'["properties"].fields, d["properties"].fields);
        assert d'["properties"].fields == map[];
      }
    }
    if "fields" in d {
      assert PrunedParameter(d'["fields"], d, "fields");
    }
    assert |d'| == |d'.Keys| && |d| == |d.Keys|;
  }

  lemma {:induction false} PrunedFieldsKeepShape(m': Definition, m: Definition)
    requires PrunedFields(m', m)
    ensures IsMultiFields(m') == IsMultiFields(m) && IsConstantKeyword(m') == IsConstantKeyword(m)
    ensures IsObjectFullyDynamic(m) ==> IsObjectFullyDynamic(m')
  {
    if "properties" in m' {
      assert PrunedEntry(m'["properties"], m, "properties");
      if m["properties"].Object? && m["properties"].fields == map[] {
        assert PrunedDefinition(m'["properties"].fields, m["properties"].fields);
        assert m'["properties"].fields == map[];
      }
    }
    if "fields" in m' {
      assert PrunedEntry(m'["fields"], m, "fields");
    }
  }

  lemma {:induction false} PrunedReflexive(d: Definition)
    ensures PrunedDefinition(d, d) && PrunedFields(d, d)
    decreases Object(d)
  {
    forall k | k in d ensures PrunedParameter(d[k], d, k) && PrunedEntry(d[k], d, k) {
      if d[k].Object? {
        PrunedReflexive(d[k].fields);
      }
    }
  }

  lemma {:induction false} EachSubdefinitionHasOriginal(path: Path, d': Definition, d: Definition,
                                                        x: (Path, Definition))
    requires PrunedDefinition(d', d) && x in Flattened(path, d')
    ensures exists y :: y in Flattened(path, d) && y.0 == x.0 && PrunedDefinition(x.1, y.1)
    decreases Object(d)
  {
    PrunedKeepsShape(d', d);
    if IsMultiFields(d) || !IsObject(d) {
      assert (path, d) in Flattened(path, d);
    } else {
      assert PrunedParameter(d'["properties"], d, "properties");
      var props', props := d'["properties"].fields, d["properties"].fields;
      assert PrunedFields(props', props);
      var k :| k in props' && props'[k].Object? && x in Flattened(Under(path, k), props'[k].fields);
      assert PrunedEntry(props'[k], props, k);
      PrunedReflexive(props[k].fields);
      EachSubdefinitionHasOriginal(Under(path, k), props'[k].fields, props[k].fields, x);
      var y :| y in Flattened(Under(path, k), props[k].fields) && y.0 == x.0 && PrunedDefinition(x.1, y.1);
      assert y in Flattened(path, d);
    }
  }

  // ----- Pruning brings no new errors

  lemma {:induction false} PrunedMatchesTemplate(v: Validator, path: Path, d': Definition, d: Definition,
                                                 ts: seq<Template>)
    requires PrunedDefinition(d', d)
    ensures NoWorse(MatchTemplates(v, path, d', ts), MatchTemplates(v, path, d, ts))
    decreases (if |ts| == 0 then 0 else 1), Object(d), 2, |ts|
  {
    if |ts| != 0 && ts[0].matcher(path) != MatchError {
      PrunedMatchesTemplate(v, path, d', d, ts[1..]);
      if ts[0].matcher(path) == Matches {
        var mapping := ts[0].mapping;
        if mapping.Object? {
          PrunedDefinitionErrors(v, path, mapping.fields, d', d, NO_TEMPLATES);
        }
        TryNoWorse(CompareObjects(v, path, mapping, Object(d'), NO_TEMPLATES),
                   CompareObjects(v, path, mapping, Object(d), NO_TEMPLATES),
                   MatchTemplates(v, path, d', ts[1..]), MatchTemplates(v, path, d, ts[1..]));
      }
    }
  }

  lemma {:induction false} PrunedNewDefinition(v: Validator, path: Path, d': Definition, d: Definition,
                                               ts: seq<Template>)
    requires PrunedDefinition(d', d)
    ensures NoNewErrors(NewDefinitionErrors(v, path, d', ts), NewDefinitionErrors(v, path, d, ts))
    decreases (if |ts| == 0 then 0 else 1), Object(d), 3
  {
    PrunedKeepsShape(d', d);
    PrunedKeepsParameter(d', d, "type");
    PrunedKeepsParameter(d', d, "time_series_metric");
    PrunedMatchesTemplate(v, path, d', d, ts);
    if MatchTemplates(v, path, d, ts) == Panicked {
      assert Error(path, Panics) in {Error(path, Panics)};
    }
  }

  lemma {:induction false} PrunedNotInPreview(v: Validator, path: Path, d': Definition, d: Definition, t: Templates)
    requires PrunedDefinition(d', d)
    ensures NoNewErrors(NotInPreviewErrors(v, path, d', t), NotInPreviewErrors(v, path, d, t))
    decreases Rank(t), Object(d), 4
  {
    var errs := NotInPreviewErrors(v, path, d, t);
    if t.Parsed? && !Panicking(errs) {
      forall x | x in Flattened(path, d') ensures NewDefinitionErrors(v, x.0, x.1, t.list) <= errs {
        EachSubdefinitionHasOriginal(path, d', d, x);
        var y :| y in Flattened(path, d) && y.0 == x.0 && PrunedDefinition(x.1, y.1);
        var part := NewDefinitionErrors(v, y.0, y.1, t.list);
        assert part <= errs;
        PartPanics(part, errs);
        PrunedNewDefinition(v, x.0, x.1, y.1, t.list);
      }
    }
  }

  /** The errors of properties are those of each. */
  lemma {:induction false} NoNewInProperties(v: Validator, path: Path, multi: bool, preview: Definition, d': Definition,
                                             d: Definition, t: Templates)
    requires d'.Keys <= d.Keys
    requires forall k | k in d' :: NoNewErrors(PropertyErrors(v, path, multi, preview, d', k, t),
                                               PropertyErrors(v, path, multi, preview, d, k, t))
    ensures NoNewErrors(PropertiesErrors(v, path, multi, preview, d', t),
                        PropertiesErrors(v, path, multi, preview, d, t))
  {
    var errs := PropertiesErrors(v, path, multi, preview, d, t);
    forall k | k in d && !Panicking(errs) ensures !Panicking(PropertyErrors(v, path, multi, preview, d, k, t)) {
      PartPanics(PropertyErrors(v, path, multi, preview, d, k, t), errs);
    }
  }

  /** Pruning the properties or the multi-fields of a definition brings no new errors. */
  lemma {:induction false} PrunedDefinitionErrors(v: Validator, path: Path, preview: Definition, d': Definition,
                                                  d: Definition, t: Templates)
    requires PrunedDefinition(d', d)
    ensures NoNewErrors(CompareErrors(v, path, true, preview, d', t), CompareErrors(v, path, true, preview, d, t))
    decreases Rank(t), Object(d), 7
  {
    PrunedKeepsShape(d', d);
    PrunedKeepsParameter(d', d, "type");
    PrunedKeepsParameter(d', d, "value");
    if IsConstantKeyword(d) || path in v.exceptions || IsObjectFullyDynamic(d') {
    } else if IsObject(d) {
      assert PrunedParameter(d'["properties"], d, "properties");
      if IsObjectFullyDynamic(preview) || !IsObject(preview) {
        PrunedNotInPreview(v, path, d', d, t);
      } else {
        PrunedFieldsErrors(v, path, preview["properties"].fields, d'["properties"].fields, d["properties"].fields, t);
      }
    } else {
      PrunedFieldErrors(v, path, preview, d', d, t);
    }
  }

  /** The same for a definition that is no object. */
  lemma {:induction false} PrunedFieldErrors(v: Validator, path: Path, preview: Definition, d': Definition,
                                             d: Definition, t: Templates)
    requires PrunedDefinition(d', d) && !IsObject(d) && !IsConstantKeyword(d) && path !in v.exceptions
    requires !IsObjectFullyDynamic(d')
    ensures NoNewErrors(CompareErrors(v, path, true, preview, d', t), CompareErrors(v, path, true, preview, d, t))
    decreases Rank(t), Object(d), 6
  {
    PrunedKeepsShape(d', d);
    var multi := IsMultiFields(d);
    forall k | k in d'
      ensures PropertyErrors(v, path, multi, preview, d', k, t) == PropertyErrors(v, path, multi, preview, d, k, t)
    {
      assert PrunedParameter(d'[k], d, k);
    }
    NoNewInProperties(v, path, multi, preview, d', d, t);
    if multi && IsMultiFields(preview) {
      assert PrunedParameter(d'["fields"], d, "fields");
      PrunedFieldsErrors(v, path, preview["fields"].fields, d'["fields"].fields, d["fields"].fields, t);
      EitherPanics(CompareErrors(v, path, false, preview["fields"].fields, d["fields"].fields, t),
                   PropertiesErrors(v, path, true, preview, d, t));
    }
  }

  /** Pruning a map of fields brings no new errors. */
  lemma {:induction false} PrunedFieldsErrors(v: Validator, path: Path, preview: Definition, m': Definition,
                                              m: Definition, t: Templates)
    requires PrunedFields(m', m)
    ensures NoNewErrors(CompareErrors(v, path, false, preview, m', t), CompareErrors(v, path, false, preview, m, t))
    decreases Rank(t), Object(m), 6
  {
    PrunedFieldsKeepShape(m', m);
    var multi := IsMultiFields(m);
    forall k | k in m'
      ensures NoNewErrors(PropertyErrors(v, path, multi, preview, m', k, t),
                          PropertyErrors(v, path, multi, preview, m, k, t))
    {
      PrunedPropertyErrors(v, path, multi, preview, m', m, k, t);
    }
    NoNewInProperties(v, path, multi, preview, m', m, t);
    if multi && IsMultiFields(preview) {
      assert PrunedEntry(m'["fields"], m, "fields");
      EitherPanics(CompareErrors(v, path, false, preview["fields"].fields, m["fields"].fields, t),
                   PropertiesErrors(v, path, true, preview, m, t));
    }
  }

  lemma {:induction false} PrunedPropertyErrors(v: Validator, path: Path, multi: bool, preview: Definition,
                                                m': Definition, m: Definition, k: string, t: Templates)
    requires PrunedFields(m', m) && k in m'
    ensures NoNewErrors(PropertyErrors(v, path, multi, preview, m', k, t),
                        PropertyErrors(v, path, multi, preview, m, k, t))
    decreases Rank(t), Object(m), 5
  {
    var here := Under(path, k);
    assert PrunedEntry(m'[k], m, k);
    if m'[k] != m[k] && !SkipValidation(v, here) {
      var d', d := m'[k].fields, m[k].fields;
      PrunedKeepsShape(d', d);
      if k !in preview {
        if !IsEmptyObject(d) {
          PrunedNotInPreview(v, here, d', d, t);
        }
      } else if preview[k].Object? {
        PrunedDefinitionErrors(v, here, preview[k].fields, d', d, t);
      }
    }
  }

  /** Removing fields from an accepted mapping keeps it accepted. */
  lemma {:induction false} PrunedIsAccepted(v: Validator, path: Path, preview: Definition, d': Definition,
                                            d: Definition, t: Templates)
    requires PrunedDefinition(d', d) && CompareErrors(v, path, true, preview, d, t) == {}
    ensures CompareErrors(v, path, true, preview, d', t) == {}
  {
    PrunedDefinitionErrors(v, path, preview, d', d, t);
  }

  lemma {:induction false} KeptObjectsArePruned(m': Definition, m: Definition)
    requires m'.Keys <= m.Keys && (forall k | k in m' :: m'[k] == m[k])
    requires forall k | k in m && !m[k].Object? :: k in m'
    requires IsMultiFields(m) ==> "fields" in m'
    ensures PrunedFields(m', m)
  {
    forall k | k in m' ensures PrunedEntry(m'[k], m, k) {
      if m[k].Object? {
        PrunedReflexive(m[k].fields);
      }
    }
  }

  /** Removing objects alone brings no new errors, bare strings or not, as long as the map reads as it did. */
  lemma {:induction false} RemovingObjects(v: Validator, path: Path, preview: Definition, m': Definition, m: Definition,
                                           t: Templates)
    requires m'.Keys <= m.Keys && (forall k | k in m' :: m'[k] == m[k])
    requires forall k | k in m && !m[k].Object? :: k in m'
    requires IsMultiFields(m) ==> "fields" in m'
    ensures NoNewErrors(CompareErrors(v, path, false, preview, m', t), CompareErrors(v, path, false, preview, m, t))
  {
    KeptObjectsArePruned(m', m);
    PrunedFieldsErrors(v, path, preview, m', m, t);
  }

  /** Where the map reads as a field with multi-fields, removing those can bring a new error. */
  lemma {:induction false} RemovingMultiFields(v: Validator, path: Path, typ: string, t: Templates)
    requires typ !in ["", "constant_keyword", "object"] && path !in v.exceptions
    requires !SkipValidation(v, Under(path, "type"))
    ensures var m: Definition := map["type" := Str(typ), "fields" := Object(map[])];
            && CompareErrors(v, path, false, map[], m, t) == {Error(path, UndefinedMultiFields)}
            && Error(Under(path, "type"), UndefinedField) in CompareErrors(v, path, false, map[], m - {"fields"}, t)
  {
    var m: Definition := map["type" := Str(typ), "fields" := Object(map[])];
    assert m["type"] == Str(typ) && m["fields"] == Object(map[]);
    var m' := m - {"fields"};
    assert m'["type"] == Str(typ);
    assert Error(Under(path, "type"), UndefinedField) in PropertyErrors(v, path, false, map[], m', "type", t);
  }

  /** Where a bare string named `type` is removed, acceptance can be lost: it made the whole map a constant keyword. */
  lemma {:induction false} RemovingABareType(v: Validator, path: Path, x: string, t: Templates)
    requires x != "type" && path !in v.exceptions && !SkipValidation(v, Under(path, x))
    ensures var preview := map["type" := Str("constant_keyword")];
            var m := map["type" := Str("constant_keyword"), x := Scalar(0)];
            && CompareErrors(v, path, false, preview, m, t) == {}
            && CompareErrors(v, path, false, preview, m - {"type"}, t) != {}
  {
    var preview: Definition := map["type" := Str("constant_keyword")];
    var m := map["type" := Str("constant_keyword"), x := Scalar(0)] - {"type"};
    assert Parameter("type", m) == "";
    assert Error(Under(path, x), UndefinedField) in PropertyErrors(v, path, false, preview, m, x, t);
    assert Error(Under(path, x), UndefinedField) in PropertiesErrors(v, path, false, preview, m, t);
  }
}
