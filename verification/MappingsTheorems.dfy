/** What holds of every run of the validator, and of what it reports where no paths meet. */
module MappingsTheorems {
  import opened DottedKeys
  import opened Mappings
  import opened MappingsRuns
  import opened MappingsSoundness
  import opened MappingsOverlooked
  import opened MappingsPruning

  // ----- A mapping as its own preview

  /** All runs report the same, whatever the names. */
  lemma {:induction false} OwnRun(v: Validator, path: Path, parameters: bool, d: Definition, t: Templates,
                                  errs: set<Error>)
    requires MayCompare(v, path, parameters, d, d, t, errs)
    ensures errs == CompareErrors(v, path, parameters, d, d, t)
    decreases Object(d), 1, 0
  {
    if !IsConstantKeyword(d) && path !in v.exceptions && !IsObjectFullyDynamic(d) {
      if parameters && IsObject(d) {
        OwnRun(v, path, false, d["properties"].fields, t, errs);
      } else if IsMultiFields(d) {
        var fields := d["fields"].fields;
        var sub, rest :| MayCompare(v, path, false, fields, fields, t, sub)
                         && MayReportProperties(v, path, true, d, d, t, rest) && errs == sub + rest;
        OwnRun(v, path, false, fields, t, sub);
        OwnPropertiesRun(v, path, true, d, t, rest);
      } else {
        OwnPropertiesRun(v, path, false, d, t, errs);
      }
    }
  }

  lemma {:induction false} OwnPropertiesRun(v: Validator, path: Path, multi: bool, d: Definition, t: Templates,
                                            errs: set<Error>)
    requires MayReportProperties(v, path, multi, d, d, t, errs)
    ensures errs == PropertiesErrors(v, path, multi, d, d, t)
    decreases Object(d), 0, 1
  {
    var f :| PropertiesRun(v, path, multi, d, d, t, f) && errs == Union(f);
    forall k | k in d ensures f[k] == PropertyErrors(v, path, multi, d, d, k, t) {
      OwnPropertyRun(v, path, multi, d, k, t, f[k]);
    }
  }

  lemma {:induction false} OwnPropertyRun(v: Validator, path: Path, multi: bool, d: Definition, k: string,
                                          t: Templates, errs: set<Error>)
    requires k in d && MayReportProperty(v, path, multi, d, d, k, t, errs)
    ensures errs == PropertyErrors(v, path, multi, d, d, k, t)
    decreases Object(d), 0, 0
  {
    var here := Under(path, k);
    if !(multi && k == "fields") && !SkipValidation(v, here) && d[k].Object? {
      assert MayCompareObjects(v, here, d[k], d[k], t, errs);
      OwnRun(v, here, true, d[k].fields, t, errs);
    }
  }

  /** A run on a mapping that is its own preview reports nothing, unless it compares a list: then it panics. */
  lemma {:induction false} OwnPreviewIsAccepted(v: Validator, path: Path, parameters: bool, d: Definition, t: Templates,
                                                errs: set<Error>)
    requires MayCompare(v, path, parameters, d, d, t, errs)
    ensures errs == {} <==> !ComparesList(v, path, parameters, d)
    ensures Panicking(errs) <==> ComparesList(v, path, parameters, d)
  {
    OwnRun(v, path, parameters, d, t, errs);
    CompareWithItself(v, path, parameters, d, t);
  }

  /** So every run on a keyword field that has a list as a parameter panics. */
  lemma {:induction false} ListParameterPanics(v: Validator, path: Path, k: string, id: int, t: Templates,
                                               errs: set<Error>)
    requires k != "type" && path !in v.exceptions && !SkipValidation(v, Under(path, k))
    requires var d := map["type" := Str("keyword"), k := List(id)]; MayCompare(v, path, true, d, d, t, errs)
    ensures Panicking(errs)
  {
    var d := map["type" := Str("keyword"), k := List(id)];
    assert d["type"] == Str("keyword") && d[k] == List(id);
    assert PropertyComparesList(v, path, false, d, k);
    OwnPreviewIsAccepted(v, path, true, d, t, errs);
  }

  // ----- Accepted mappings

  /** Where no paths meet, a run reports an error exactly if the comparison ends at a place that nothing accounts for,
      and the error names the path of that place and the reason due there. */
  lemma RunReportsExactly(v: Validator, t: Templates, s: Spot, errs: set<Error>, e: Error)
    requires Compared(s) && Unmet(s.path, s.actual.fields)
    requires MayCompare(v, s.path, !s.names, s.preview.value.fields, s.actual.fields, t, errs)
    ensures e in errs
       <==> exists keys :: && Stopping(t, s, keys) && !Explained(v, t, s, keys)
                           && e.path == Place(s, keys).path && Due(v, t, Place(s, keys), e.reason)
  {
    CompareRun(v, s.path, !s.names, s.preview.value.fields, s.actual.fields, t, errs);
    ErrorsExactly(v, t, s, e);
    Culprit(v, t, s, e);
    if e in errs {
      var keys :| Blamed(v, t, s, keys, e);
      assert Stopping(t, s, keys) && !Explained(v, t, s, keys);
    }
    if keys :| && Stopping(t, s, keys) && !Explained(v, t, s, keys)
               && e.path == Place(s, keys).path && Due(v, t, Place(s, keys), e.reason) {
      IsBlamed(v, t, s, keys, e);
    }
  }

  /** So it reports nothing exactly if something accounts for every place where the comparison ends. */
  lemma AcceptingRunExactly(v: Validator, t: Templates, s: Spot, errs: set<Error>)
    requires Compared(s) && Unmet(s.path, s.actual.fields)
    requires MayCompare(v, s.path, !s.names, s.preview.value.fields, s.actual.fields, t, errs)
    ensures errs == {} <==> AllExplained(v, t, s)
  {
    CompareRun(v, s.path, !s.names, s.preview.value.fields, s.actual.fields, t, errs);
    AcceptedExactly(v, t, s);
  }

  /** If a run reports nothing, something accounts for every leaf that is looked at. */
  lemma {:induction false} AcceptingRunExplains(v: Validator, t: Templates, s: Spot, keys: seq<string>)
    requires Compared(s) && LeadsToLeaf(s, keys)
    requires Unmet(s.path, s.actual.fields)
    requires MayCompare(v, s.path, !s.names, s.preview.value.fields, s.actual.fields, t, {})
    ensures Explained(v, t, s, keys)
  {
    CompareRun(v, s.path, !s.names, s.preview.value.fields, s.actual.fields, t, {});
    AcceptedIsExplained(v, t, s, keys);
  }

  // ----- Changed mappings

  lemma NoNewErrorsOnward(a: set<Error>, b: set<Error>, c: set<Error>)
    requires NoNewErrors(a, b) && NoNewErrors(b, c)
    ensures NoNewErrors(a, c)
  {
    if !Panicking(c) {
      PartPanics(b, c);
    }
  }

  /** Unless a run panics, none reports more once properties or multi-fields have been removed. */
  lemma {:induction false} PrunedRunsReportNoMore(v: Validator, path: Path, preview: Definition, d': Definition,
                                                  d: Definition, t: Templates, errs': set<Error>, errs: set<Error>)
    requires PrunedDefinition(d', d) && Unmet(path, d)
    requires MayCompare(v, path, true, preview, d, t, errs) && MayCompare(v, path, true, preview, d', t, errs')
    ensures NoNewErrors(errs', errs)
  {
    CompareRun(v, path, true, preview, d, t, errs);
    PrunedDefinitionErrors(v, path, preview, d', d, t);
    CompareRun(v, path, true, preview, d', t, errs');
    NoNewErrorsOnward(errs', CompareErrors(v, path, true, preview, d', t), errs);
  }

  /** The same for a map of fields, with which the program starts. */
  lemma {:induction false} PrunedFieldsRunsReportNoMore(v: Validator, path: Path, preview: Definition, m': Definition,
                                                        m: Definition, t: Templates, errs': set<Error>,
                                                        errs: set<Error>)
    requires PrunedFields(m', m) && Unmet(path, m)
    requires MayCompare(v, path, false, preview, m, t, errs) && MayCompare(v, path, false, preview, m', t, errs')
    ensures NoNewErrors(errs', errs)
  {
    CompareRun(v, path, false, preview, m, t, errs);
    PrunedFieldsErrors(v, path, preview, m', m, t);
    CompareRun(v, path, false, preview, m', t, errs');
    NoNewErrorsOnward(errs', CompareErrors(v, path, false, preview, m', t), errs);
  }

  /** Unless a run panics, none reports more once an overlooked leaf has another value. */
  lemma OverlookedInRuns(v: Validator, t: Templates, s: Spot, keys: seq<string>, x: Value, errs': set<Error>,
                         errs: set<Error>)
    requires s.preview.Some? && s.preview.value.Object? && s.actual.Object? && !x.Object?
    requires AnyLeaf(s.actual, keys) && Overlooked(s, keys) && Unmet(s.path, s.actual.fields)
    requires MayCompare(v, s.path, !s.names, s.preview.value.fields, s.actual.fields, t, errs)
    requires MayCompare(v, s.path, !s.names, s.preview.value.fields, Replace(s.actual, keys, x).fields, t, errs')
    ensures NoNewErrors(errs', errs)
  {
    CompareRun(v, s.path, !s.names, s.preview.value.fields, s.actual.fields, t, errs);
    OverlookedDoesNotMatter(v, t, s, keys, x);
    CompareRun(v, s.path, !s.names, s.preview.value.fields, Replace(s.actual, keys, x).fields, t, errs');
  }
}
