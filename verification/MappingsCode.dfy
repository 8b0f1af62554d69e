/** The validator's loops: whatever order the keys are taken in, what is reported is what a run may report. */
module MappingsCode {
  import opened DottedKeys
  import opened Mappings
  import opened MappingsRuns

  /** flattenMappings */
  method FlattenMappings(path: Path, d: Definition) returns (newDefs: map<Path, Definition>)
    ensures Chosen(newDefs, path, d)
    decreases Object(d)
  {
    if IsMultiFields(d) || !IsObject(d) {
      return map[path := d];
    }
    var props := d["properties"].fields;
    newDefs := map[];
    var todo := props.Keys;
    while todo != {}
      invariant todo <= props.Keys
      invariant ChosenFrom(newDefs, FlattenedUnder(path, props, props.Keys - todo))
      decreases todo
    {
      var k :| k in todo;
      OneMoreUnder(path, props, todo, k);
      match props[k] {
        case Object(value) =>
          var other := FlattenMappings(Under(path, k), value);
          newDefs := newDefs + other;
        case _ =>
      }
      todo := todo - {k};
    }
    assert props.Keys - todo == props.Keys;
    assert FlattenedUnder(path, props, props.Keys) == Flattened(path, d);
  }

  /** One definition for every path in `xs`. */
  predicate ChosenFrom(m: map<Path, Definition>, xs: set<(Path, Definition)>) {
    (forall p | p in m :: (p, m[p]) in xs) && forall x | x in xs :: x.0 in m
  }

  lemma OneMoreUnder(path: Path, props: Definition, todo: set<string>, k: string)
    requires todo <= props.Keys && k in todo
    ensures FlattenedUnder(path, props, props.Keys - (todo - {k}))
         == FlattenedUnder(path, props, props.Keys - todo)
          + if props[k].Object? then Flattened(Under(path, k), props[k].fields) else {}
  {
    assert props.Keys - (todo - {k}) == (props.Keys - todo) + {k};
  }

  /** matchingWithDynamicTemplates: whether some template accepts; `Panicked` stands for a panic. */
  method MatchingWithDynamicTemplates(v: Validator, path: Path, d: Definition, ts: seq<Template>)
    returns (verdict: Verdict)
    ensures MayMatch(v, path, d, ts, verdict)
    decreases (if |ts| == 0 then 0 else 1), Object(d), 2
  {
    for i := 0 to |ts|
      invariant forall r :: MayMatch(v, path, d, ts[i..], r) ==> MayMatch(v, path, d, ts, r)
    {
      assert ts[i..][0] == ts[i] && ts[i..][1..] == ts[i + 1..];
      var outcome := ts[i].matcher(path);
      if outcome == MatchError {
        return Rejected;
      }
      if outcome == NoMatch {
        continue;
      }
      // Without templates: Rank goes down although the definition is the same.
      var errs := ValidateMappingObject(v, path, ts[i].mapping, Object(d), NO_TEMPLATES);
      if Panicking(errs) {
        return Panicked;
      }
      if errs == {} {
        return Accepted;
      }
    }
    return Rejected;
  }

  lemma UnionOfOneMore(f: map<string, set<Error>>, k: string, errs: set<Error>)
    requires k !in f
    ensures Union(f[k := errs]) == Union(f) + errs
  {
    var g := f[k := errs];
    assert forall j | j in f :: g[j] == f[j];
    assert g[k] == errs;
  }

  /** validateMappingsNotInPreview */
  method ValidateMappingsNotInPreview(v: Validator, path: Path, d: Definition, t: Templates)
    returns (errs: set<Error>)
    ensures MayReportNew(v, path, d, t, errs)
    decreases Rank(t), Object(d), 5
  {
    var flat := FlattenMappings(path, d);
    if t.Malformed? {
      return {Error(path, BadTemplates)};
    }
    errs := {};
    ghost var f: map<Path, set<Error>> := map[];
    var todo := flat.Keys;
    while todo != {}
      invariant todo <= flat.Keys && f.Keys == flat.Keys - todo
      invariant EachReported(v, flat, t.list, f)
      invariant errs == Union(f)
      decreases todo
    {
      var fieldPath :| fieldPath in todo;
      ChosenIsInside(flat, path, d, fieldPath);
      var more := ValidateDefinition(v, fieldPath, flat[fieldPath], t.list);
      UnionOfOneMore(f, fieldPath, more);
      f := f[fieldPath := more];
      errs := errs + more;
      todo := todo - {fieldPath};
    }
    AllReported(v, path, d, t, flat, f);
  }

  ghost predicate EachReported(v: Validator, flat: map<Path, Definition>, ts: seq<Template>, f: map<Path, set<Error>>) {
    f.Keys <= flat.Keys && forall p | p in f :: MayReportDefinition(v, p, flat[p], ts, f[p])
  }

  lemma ChosenIsInside(flat: map<Path, Definition>, path: Path, d: Definition, p: Path)
    requires Chosen(flat, path, d) && p in flat
    ensures flat[p] == d || Object(flat[p]) < Object(d)
  {
    assert (p, flat[p]) in Flattened(path, d);
  }

  lemma {:induction false} AllReported(v: Validator, path: Path, d: Definition, t: Templates,
                                       flat: map<Path, Definition>, f: map<Path, set<Error>>)
    requires t.Parsed? && Chosen(flat, path, d) && EachReported(v, flat, t.list, f) && f.Keys == flat.Keys
    ensures MayReportNew(v, path, d, t, Union(f))
  {
    assert DefinitionsRun(v, path, d, t.list, flat, f);
  }

  /** One turn of the loop over flattened definitions. */
  method ValidateDefinition(v: Validator, path: Path, d: Definition, ts: seq<Template>) returns (errs: set<Error>)
    ensures MayReportDefinition(v, path, d, ts, errs)
    decreases (if |ts| == 0 then 0 else 1), Object(d), 3
  {
    if path in v.exceptions || IsEmptyObject(d) {
      return {};
    }
    if |ts| > 0 {
      var verdict := MatchingWithDynamicTemplates(v, path, d, ts);
      if verdict == Panicked {
        return {Error(path, Panics)};
      }
      if verdict == Accepted {
        return {};
      }
    }
    return SchemaErrors(v, path, d);
  }

  /** compareMappings */
  method CompareMappings(v: Validator, path: Path, parameters: bool, preview: Definition, actual: Definition,
                         t: Templates) returns (errs: set<Error>)
    ensures MayCompare(v, path, parameters, preview, actual, t, errs)
    decreases Rank(t), Object(actual), 9
  {
    if IsConstantKeyword(actual) {
      return ConstantKeywordErrors(path, preview, actual);
    }
    if path in v.exceptions {
      return {};
    }
    if IsObjectFullyDynamic(actual) {
      return {};
    }
    errs := {};
    if parameters && IsObject(actual) {
      if IsObjectFullyDynamic(preview) {
        errs := ValidateMappingsNotInPreview(v, path, actual, t);
        return;
      } else if !IsObject(preview) {
        if !AllowsDynamicChildren(preview, actual) {
          return {Error(path, UndefinedMappings)};
        }
        errs := ValidateMappingsNotInPreview(v, path, actual, t);
        return;
      }
      errs := CompareMappings(v, path, false, preview["properties"].fields, actual["properties"].fields, t);
      return;
    }
    var multi := IsMultiFields(actual);
    if multi {
      if !IsMultiFields(preview) {
        return {Error(path, UndefinedMultiFields)};
      }
      errs := CompareMappings(v, path, false, preview["fields"].fields, actual["fields"].fields, t);
    }
    ghost var sub := errs;
    var propertiesErrs := ValidateObjectProperties(v, path, multi, preview, actual, t);
    errs := errs + propertiesErrs;
    assert multi ==> errs == sub + propertiesErrs;
  }

  /** validateObjectProperties */
  method ValidateObjectProperties(v: Validator, path: Path, multi: bool, preview: Definition, actual: Definition,
                                  t: Templates) returns (errs: set<Error>)
    ensures MayReportProperties(v, path, multi, preview, actual, t, errs)
    decreases Rank(t), Object(actual), 8
  {
    errs := {};
    ghost var f: map<string, set<Error>> := map[];
    var todo := actual.Keys;
    while todo != {}
      invariant todo <= actual.Keys && f.Keys == actual.Keys - todo
      invariant forall k | k in f :: MayReportProperty(v, path, multi, preview, actual, k, t, f[k])
      invariant errs == Union(f)
      decreases todo
    {
      var k :| k in todo;
      var more := ValidateObjectProperty(v, path, multi, preview, actual, k, t);
      UnionOfOneMore(f, k, more);
      f := f[k := more];
      errs := errs + more;
      todo := todo - {k};
    }
    assert PropertiesRun(v, path, multi, preview, actual, t, f);
  }

  /** One turn of the loop over keys. */
  method ValidateObjectProperty(v: Validator, path: Path, multi: bool, preview: Definition, actual: Definition,
                                k: string, t: Templates) returns (errs: set<Error>)
    requires k in actual
    ensures MayReportProperty(v, path, multi, preview, actual, k, t, errs)
    decreases Rank(t), Object(actual), 6
  {
    if multi && k == "fields" {
      return {};
    }
    var here := Under(path, k);
    if SkipValidation(v, here) {
      return {};
    }
    if k !in preview {
      match actual[k] {
        case Object(childField) =>
          if IsEmptyObject(childField) {
            return {};
          }
          errs := ValidateMappingsNotInPreview(v, here, childField, t);
          return;
        case _ =>
          return {Error(here, UndefinedField)};
      }
    }
    match actual[k] {
      case Object(_) =>
        errs := ValidateMappingObject(v, here, preview[k], actual[k], t);
      case Null =>
        errs := {};
      case _ =>
        errs := ParameterErrors(here, preview[k], actual[k]);
    }
  }

  /** validateMappingObject */
  method ValidateMappingObject(v: Validator, path: Path, preview: Value, actual: Value, t: Templates)
    returns (errs: set<Error>)
    ensures MayCompareObjects(v, path, preview, actual, t, errs)
    decreases Rank(t), actual, 10
  {
    if !preview.Object? {
      return {Error(path, PreviewNotObject)};
    }
    if !actual.Object? {
      return {Error(path, ActualNotObject)};
    }
    errs := CompareMappings(v, path, true, preview.fields, actual.fields, t);
  }
}
