/**
 * What it means that a mapping is accepted: wherever the comparison of a value ends, something accounts for it, and
 * nothing else makes a mapping accepted.
 */
module MappingsSoundness {
  import opened DottedKeys
  import opened Options
  import opened FieldLookup
  import opened Mappings

  /** A place in the actual mapping, with its field path and what the preview has there.
      `names` says that the keys of the value are field names, not mapping parameters. */
  datatype Spot = Spot(path: Path, names: bool, preview: Option<Value>, actual: Value)

  /** Under `k` the definition has an object. */
  predicate Holds(d: Definition, k: string) {
    k in d && d[k].Object?
  }

  predicate HoldsMultiFields(d: Definition) {
    Parameter("type", d) != "" && Holds(d, "fields")
  }

  /** An object that declares no fields and lets Elasticsearch create any. */
  predicate TakesAnyFields(d: Definition) {
    && Parameter("type", d) == "object" && Parameter("dynamic", d) == "true"
    && ("properties" in d ==> d["properties"] == Object(map[]))
  }

  /** The preview lets Elasticsearch create the fields of this object while documents are ingested. */
  predicate DynamicHere(preview: Option<Value>, actual: Definition) {
    && preview.Some? && preview.value.Object?
    && var p := preview.value.fields;
    || TakesAnyFields(p)
    || (!Holds(p, "properties") && Parameter("type", p) == Parameter("type", actual) == "nested")
  }

  function PreviewAt(preview: Option<Value>, k: string): Option<Value> {
    if preview.Some? && preview.value.Object? && k in preview.value.fields then Some(preview.value.fields[k]) else None
  }

  /** The next place on the way to a leaf: `properties` and multi-field maps add nothing to the path. */
  function Step(s: Spot, k: string): Spot
    requires s.actual.Object? && k in s.actual.fields
  {
    var d := s.actual.fields;
    if !s.names && Holds(d, "properties") && k == "properties" then
      Spot(s.path, true, if DynamicHere(s.preview, d) then None else PreviewAt(s.preview, k), d[k])
    else if s.preview.Some? && HoldsMultiFields(d) && k == "fields" then
      Spot(s.path, true, PreviewAt(s.preview, k), d[k])
    else
      Spot(Under(s.path, k), false, PreviewAt(s.preview, k), d[k])
  }

  /** `keys` leads through `value` to something that is no object. */
  predicate AnyLeaf(value: Value, keys: seq<string>)
    decreases |keys|
  {
    if !value.Object? then keys == []
    else keys != [] && keys[0] in value.fields && AnyLeaf(value.fields[keys[0]], keys[1..])
  }

  /** The preview has nothing here, or leaves what is here to Elasticsearch. */
  predicate IsNew(s: Spot) {
    || s.preview.None?
    || (s.actual.Object? && DynamicHere(s.preview, s.actual.fields) && Holds(s.actual.fields, "properties"))
  }

  /** A new definition that is not flattened further: it is judged as a whole. */
  predicate Whole(s: Spot) {
    && !s.names && IsNew(s) && s.actual.Object?
    && (HoldsMultiFields(s.actual.fields) || !Holds(s.actual.fields, "properties"))
  }

  /** The way to a leaf is followed to its end: it does not turn off beside `properties`, nor end in a bare value
      among the names of fields that the preview does not have. */
  ghost predicate Followed(s: Spot, keys: seq<string>)
    requires AnyLeaf(s.actual, keys)
    decreases |keys|
  {
    keys == [] || Whole(s) ||
    var d := s.actual.fields;
    && (!s.names && Holds(d, "properties") ==> keys[0] == "properties")
    && (s.names && s.preview.None? ==> d[keys[0]].Object?)
    && Followed(Step(s, keys[0]), keys[1..])
  }

  /** `keys` leads from `s` to a leaf that is looked at. */
  ghost predicate LeadsToLeaf(s: Spot, keys: seq<string>) {
    AnyLeaf(s.actual, keys) && Followed(s, keys)
  }

  // ----- Where the comparison ends

  /** The preview does not have the properties or the multi-fields that are here. */
  predicate Undefined(s: Spot, preview: Definition, d: Definition) {
    if !s.names && Holds(d, "properties") then !DynamicHere(s.preview, d) && !Holds(preview, "properties")
    else HoldsMultiFields(d) && !HoldsMultiFields(preview)
  }

  /** What is here is accepted or rejected in one go. */
  predicate Stops(t: Templates, s: Spot) {
    || !s.actual.Object?
    || (s.preview.Some?
        && (|| !s.preview.value.Object? || Parameter("type", s.actual.fields) == "constant_keyword"
            || Undefined(s, s.preview.value.fields, s.actual.fields)))
    || (!s.names && IsNew(s) && (t.Malformed? || Whole(s)))
  }

  /** The comparison goes on with the value under `k`. */
  predicate GoesOn(s: Spot, k: string) {
    && s.actual.Object? && k in s.actual.fields
    && (!s.names && Holds(s.actual.fields, "properties") ==> k == "properties")
    && (s.names && s.preview.None? ==> s.actual.fields[k].Object?)
  }

  /** The value under `k` is not looked at, because its path belongs to a family of fields that is skipped. */
  predicate SkippedAt(v: Validator, s: Spot, k: string) {
    && s.preview.Some? && s.actual.Object?
    && (s.names || !Holds(s.actual.fields, "properties")) && !(HoldsMultiFields(s.actual.fields) && k == "fields")
    && var path := Under(s.path, k);
    exists family | family in v.families :: path == family || family + "." <= path
  }

  /** `keys` leads to a place where what is there is accepted or rejected in one go. */
  ghost predicate Stopping(t: Templates, s: Spot, keys: seq<string>)
    decreases |keys|
  {
    if Stops(t, s) then keys == []
    else keys != [] && GoesOn(s, keys[0]) && Stopping(t, Step(s, keys[0]), keys[1..])
  }

  /** The place that `keys` leads to. */
  function Place(s: Spot, keys: seq<string>): Spot
    decreases |keys|
  {
    if keys == [] || !GoesOn(s, keys[0]) then s else Place(Step(s, keys[0]), keys[1..])
  }

  // ----- Reasons to accept what is at a place, and to report it

  predicate SameType(a: string, b: string) {
    a == b || (a in {"float", "long", "double"} && b in {"float", "long", "double"})
  }

  /** Two parameters are the same, or name number types; lists cannot be compared. */
  predicate Agree(a: Value, b: Value) {
    (a == b && !b.List?) || (a.Str? && b.Str? && SameType(a.s, b.s))
  }

  /** A constant keyword in both, with the preview's value if that has one. */
  predicate KeywordsAgree(preview: Definition, d: Definition) {
    && Parameter("type", preview) == "constant_keyword"
    && (Parameter("value", preview) == "" || Parameter("value", preview) == Parameter("value", d))
  }

  /** A field of the schema, marked as coming from ECS, has the type and the metric of the definition. */
  predicate SchemaAccepts(v: Validator, path: Path, d: Definition) {
    var found := FindElementDefinition(path, v.schema);
    && found.Some? && found.value.external == "ecs" && SameType(found.value.typ, Parameter("type", d))
    && found.value.metricType == Parameter("time_series_metric", d)
  }

  /** What the schema has against the definition. */
  predicate SchemaFault(v: Validator, path: Path, d: Definition, r: Reason) {
    var found := FindElementDefinition(path, v.schema);
    if found.None? || found.value.external != "ecs" then r == NotInSchema
    else
      || (r == OtherType && !SameType(found.value.typ, Parameter("type", d)))
      || (r == OtherMetric && found.value.metricType != Parameter("time_series_metric", d))
  }

  function RankOf(ts: seq<Template>): nat {
    if |ts| == 0 then 0 else 1
  }

  /** The definition compared with the mapping that a template gives. */
  function Beside(path: Path, mapping: Value, d: Definition): Spot {
    Spot(path, false, Some(mapping), Object(d))
  }

  /** The template matches the path and accepts the definition. */
  ghost predicate TemplateAccepts(v: Validator, path: Path, d: Definition, template: Template)
    decreases 1, 0, 1
  {
    template.matcher(path) == Matches && AllExplained(v, NO_TEMPLATES, Beside(path, template.mapping, d))
  }

  /** The template matches the path, and comparing the definition with it panics. */
  ghost predicate TemplatePanics(v: Validator, path: Path, d: Definition, template: Template)
    decreases 1, 0, 1
  {
    && template.matcher(path) == Matches
    && exists at :: SomeBlame(v, NO_TEMPLATES, Beside(path, template.mapping, d), Error(at, Panics))
  }

  /** The template does not match the path, or it rejects the definition. */
  ghost predicate PassedOver(v: Validator, path: Path, d: Definition, template: Template)
    decreases 1, 0, 2
  {
    && template.matcher(path) != MatchError
    && !TemplateAccepts(v, path, d, template) && !TemplatePanics(v, path, d, template)
  }

  /** All templates before `i` are passed over. */
  ghost predicate Tried(v: Validator, path: Path, d: Definition, ts: seq<Template>, i: nat)
    decreases RankOf(ts), 0, 3
  {
    i < |ts| && forall j :: 0 <= j < i ==> PassedOver(v, path, d, ts[j])
  }

  ghost predicate TemplatesAccept(v: Validator, path: Path, d: Definition, ts: seq<Template>)
    decreases RankOf(ts), 0, 4
  {
    exists i: nat :: Tried(v, path, d, ts, i) && TemplateAccepts(v, path, d, ts[i])
  }

  ghost predicate TemplatesPanic(v: Validator, path: Path, d: Definition, ts: seq<Template>)
    decreases RankOf(ts), 0, 4
  {
    exists i: nat :: Tried(v, path, d, ts, i) && TemplatePanics(v, path, d, ts[i])
  }

  /** A definition that is judged as a whole is empty or an exception, or a template or the schema accepts it. */
  ghost predicate NewAccepted(v: Validator, t: Templates, path: Path, d: Definition)
    decreases Rank(t), 0, 5
  {
    || d == map["type" := Str("object")]
    || (t.Parsed? &&
        (|| path in v.exceptions
         || TemplatesAccept(v, path, d, t.list)
         || (SchemaAccepts(v, path, d) && !TemplatesPanic(v, path, d, t.list))))
  }

  /** The reasons that account for all that is here. */
  ghost predicate Justified(v: Validator, t: Templates, s: Spot)
    decreases Rank(t), 0, 6
  {
    if !s.actual.Object? then s.preview.Some? && (s.actual.Null? || Agree(s.preview.value, s.actual))
    else
      var d := s.actual.fields;
      if s.preview.None? then Whole(s) && NewAccepted(v, t, s.path, d)
      else if !s.preview.value.Object? then false
      else if Parameter("type", d) == "constant_keyword" then KeywordsAgree(s.preview.value.fields, d)
      else s.path in v.exceptions || TakesAnyFields(d) || (Whole(s) && NewAccepted(v, t, s.path, d))
  }

  /** The reason to report what is here, where the comparison ends and nothing accounts for it. */
  ghost predicate Due(v: Validator, t: Templates, s: Spot, r: Reason)
    decreases Rank(t), 0, 6
  {
    if !s.actual.Object? then
      r == if s.preview.None? then UndefinedField
           else if s.preview.value.List? && s.actual.List? then Panics else UnexpectedValue
    else
      var d := s.actual.fields;
      if s.preview.Some? && !s.preview.value.Object? then r == PreviewNotObject
      else if s.preview.Some? && Parameter("type", d) == "constant_keyword" then
        r == if Parameter("type", s.preview.value.fields) == "constant_keyword" then OtherConstantKeywordValue
             else NotConstantKeywordInPreview
      else if s.preview.Some? && Undefined(s, s.preview.value.fields, d) then
        r == if !s.names && Holds(d, "properties") then UndefinedMappings else UndefinedMultiFields
      else if t.Malformed? then r == BadTemplates
      else DueNew(v, t.list, s.path, d, r)
  }

  /** The reason to report a definition that the preview does not have. */
  ghost predicate DueNew(v: Validator, ts: seq<Template>, path: Path, d: Definition, r: Reason)
    decreases RankOf(ts), 0, 5
  {
    if TemplatesPanic(v, path, d, ts) then r == Panics else SchemaFault(v, path, d, r)
  }

  /** The comparison that follows `keys` comes to a place that is justified, or to a value that is skipped. */
  ghost predicate Explained(v: Validator, t: Templates, s: Spot, keys: seq<string>)
    decreases Rank(t), |keys| + 1, 0
  {
    || Justified(v, t, s)
    || (keys != [] && !Stops(t, s) && GoesOn(s, keys[0])
        && (SkippedAt(v, s, keys[0]) || Explained(v, t, Step(s, keys[0]), keys[1..])))
  }

  /** The comparison ends where `keys` leads, nothing accounts for what is there, and `e` says what is wrong with it. */
  ghost predicate Blamed(v: Validator, t: Templates, s: Spot, keys: seq<string>, e: Error)
    decreases Rank(t), |keys| + 1, 1
  {
    && Stopping(t, s, keys) && !Explained(v, t, s, keys)
    && e.path == Place(s, keys).path && Due(v, t, Place(s, keys), e.reason)
  }

  /** There is a place to blame. */
  ghost predicate SomeBlame(v: Validator, t: Templates, s: Spot, e: Error)
    decreases Rank(t)
  {
    exists keys :: Blamed(v, t, s, keys, e)
  }

  /** Something accounts for every place where the comparison ends. */
  ghost predicate AllExplained(v: Validator, t: Templates, s: Spot)
    decreases Rank(t)
  {
    forall keys :: Stopping(t, s, keys) ==> Explained(v, t, s, keys)
  }

  // ----- Following blame

  lemma {:induction false} BlameHere(v: Validator, t: Templates, s: Spot, e: Error)
    requires Stops(t, s)
    ensures SomeBlame(v, t, s, e) <==> !Justified(v, t, s) && e.path == s.path && Due(v, t, s, e.reason)
  {
    assert Blamed(v, t, s, [], e) <==> !Justified(v, t, s) && e.path == s.path && Due(v, t, s, e.reason);
  }

  lemma {:induction false} NoBlame(v: Validator, t: Templates, s: Spot, e: Error)
    requires Justified(v, t, s)
    ensures !SomeBlame(v, t, s, e)
  {
    forall keys ensures !Blamed(v, t, s, keys, e) {
      assert Explained(v, t, s, keys);
    }
  }

  lemma {:induction false} Culprit(v: Validator, t: Templates, s: Spot, e: Error)
    ensures SomeBlame(v, t, s, e) ==> exists keys :: Blamed(v, t, s, keys, e)
  {
    if forall keys :: !Blamed(v, t, s, keys, e) {
      assert !SomeBlame(v, t, s, e);
    }
  }

  lemma {:induction false} IsBlamed(v: Validator, t: Templates, s: Spot, keys: seq<string>, e: Error)
    requires Blamed(v, t, s, keys, e)
    ensures SomeBlame(v, t, s, e)
  {
  }

  lemma {:induction false} BlameStep(v: Validator, t: Templates, s: Spot, k: string, rest: seq<string>, e: Error)
    requires !Stops(t, s) && !Justified(v, t, s)
    ensures Blamed(v, t, s, [k] + rest, e)
       <==> GoesOn(s, k) && !SkippedAt(v, s, k) && Blamed(v, t, Step(s, k), rest, e)
  {
    var keys := [k] + rest;
    assert keys[0] == k && keys[1..] == rest;
  }

  lemma {:induction false} BlameOnward(v: Validator, t: Templates, s: Spot, e: Error)
    requires !Stops(t, s) && !Justified(v, t, s)
    ensures SomeBlame(v, t, s, e)
       <==> exists k :: GoesOn(s, k) && !SkippedAt(v, s, k) && SomeBlame(v, t, Step(s, k), e)
  {
    if SomeBlame(v, t, s, e) {
      Culprit(v, t, s, e);
      var keys :| Blamed(v, t, s, keys, e);
      assert keys == [keys[0]] + keys[1..];
      BlameStep(v, t, s, keys[0], keys[1..], e);
    }
    if k :| GoesOn(s, k) && !SkippedAt(v, s, k) && SomeBlame(v, t, Step(s, k), e) {
      Culprit(v, t, Step(s, k), e);
      var rest :| Blamed(v, t, Step(s, k), rest, e);
      BlameStep(v, t, s, k, rest, e);
    }
  }

  /** What is not explained is to blame for something. */
  lemma {:induction false} UnexplainedIsBlamed(v: Validator, t: Templates, s: Spot, keys: seq<string>)
    returns (e: Error)
    requires Stopping(t, s, keys) && !Explained(v, t, s, keys)
    ensures Blamed(v, t, s, keys, e)
    decreases |keys|
  {
    if Stops(t, s) {
      e := SomethingDue(v, t, s);
    } else {
      e := UnexplainedIsBlamed(v, t, Step(s, keys[0]), keys[1..]);
    }
  }

  lemma SomethingDue(v: Validator, t: Templates, s: Spot) returns (e: Error)
    requires Stops(t, s) && !Justified(v, t, s)
    ensures e.path == s.path && Due(v, t, s, e.reason)
  {
    e := Error(s.path, UndefinedField);
    if !s.actual.Object? {
      if s.preview.Some? {
        e := Error(s.path, if s.preview.value.List? && s.actual.List? then Panics else UnexpectedValue);
      }
    } else {
      var d := s.actual.fields;
      if s.preview.Some? && !s.preview.value.Object? {
        e := Error(s.path, PreviewNotObject);
      } else if s.preview.Some? && Parameter("type", d) == "constant_keyword" {
        e := Error(s.path, if Parameter("type", s.preview.value.fields) == "constant_keyword"
                           then OtherConstantKeywordValue else NotConstantKeywordInPreview);
      } else if s.preview.Some? && Undefined(s, s.preview.value.fields, d) {
        e := Error(s.path, if !s.names && Holds(d, "properties") then UndefinedMappings else UndefinedMultiFields);
      } else if t.Malformed? {
        e := Error(s.path, BadTemplates);
      } else {
        var r := SomethingNewDue(v, t.list, s.path, d);
        e := Error(s.path, r);
      }
    }
  }

  lemma SomethingNewDue(v: Validator, ts: seq<Template>, path: Path, d: Definition) returns (r: Reason)
    requires !NewAccepted(v, Parsed(ts), path, d)
    ensures DueNew(v, ts, path, d, r)
  {
    var found := FindElementDefinition(path, v.schema);
    r := if TemplatesPanic(v, path, d, ts) then Panics
         else if found.None? || found.value.external != "ecs" then NotInSchema
         else if !SameType(found.value.typ, Parameter("type", d)) then OtherType
         else OtherMetric;
  }

  // ----- New definitions

  lemma {:induction false} TriedNext(v: Validator, path: Path, d: Definition, ts: seq<Template>, i: nat)
    requires ts != []
    ensures Tried(v, path, d, ts, i + 1) <==> PassedOver(v, path, d, ts[0]) && Tried(v, path, d, ts[1..], i)
  {
    if Tried(v, path, d, ts, i + 1) {
      assert forall j :: 0 <= j < i ==> ts[1..][j] == ts[j + 1];
    }
    if PassedOver(v, path, d, ts[0]) && Tried(v, path, d, ts[1..], i) {
      assert forall j :: 1 <= j < i + 1 ==> ts[j] == ts[1..][j - 1];
    }
  }

  lemma {:induction false} AcceptingTemplate(v: Validator, path: Path, d: Definition, ts: seq<Template>)
    requires ts != []
    ensures TemplatesAccept(v, path, d, ts) <==>
      TemplateAccepts(v, path, d, ts[0]) || (PassedOver(v, path, d, ts[0]) && TemplatesAccept(v, path, d, ts[1..]))
  {
    if i: nat :| Tried(v, path, d, ts, i) && TemplateAccepts(v, path, d, ts[i]) && i > 0 {
      TriedNext(v, path, d, ts, i - 1);
      assert ts[i] == ts[1..][i - 1];
    }
    if TemplateAccepts(v, path, d, ts[0]) {
      assert Tried(v, path, d, ts, 0);
    }
    if PassedOver(v, path, d, ts[0]) && TemplatesAccept(v, path, d, ts[1..]) {
      var i: nat :| Tried(v, path, d, ts[1..], i) && TemplateAccepts(v, path, d, ts[1..][i]);
      TriedNext(v, path, d, ts, i);
      assert ts[i + 1] == ts[1..][i];
    }
  }

  lemma {:induction false} PanickingTemplate(v: Validator, path: Path, d: Definition, ts: seq<Template>)
    requires ts != []
    ensures TemplatesPanic(v, path, d, ts) <==>
      TemplatePanics(v, path, d, ts[0]) || (PassedOver(v, path, d, ts[0]) && TemplatesPanic(v, path, d, ts[1..]))
  {
    if i: nat :| Tried(v, path, d, ts, i) && TemplatePanics(v, path, d, ts[i]) && i > 0 {
      TriedNext(v, path, d, ts, i - 1);
      assert ts[i] == ts[1..][i - 1];
    }
    if TemplatePanics(v, path, d, ts[0]) {
      assert Tried(v, path, d, ts, 0);
    }
    if PassedOver(v, path, d, ts[0]) && TemplatesPanic(v, path, d, ts[1..]) {
      var i: nat :| Tried(v, path, d, ts[1..], i) && TemplatePanics(v, path, d, ts[1..][i]);
      TriedNext(v, path, d, ts, i);
      assert ts[i + 1] == ts[1..][i];
    }
  }

  /** What the comparison with the mapping of a template comes to. */
  lemma {:induction false} TemplateMeaning(v: Validator, path: Path, d: Definition, template: Template)
    requires template.matcher(path) == Matches
    ensures var errs := CompareObjects(v, path, template.mapping, Object(d), NO_TEMPLATES);
            && (TemplateAccepts(v, path, d, template) <==> errs == {})
            && (TemplatePanics(v, path, d, template) <==> Panicking(errs))
    decreases 1, Object(d), 9
  {
    var s := Beside(path, template.mapping, d);
    var errs := CompareObjects(v, path, template.mapping, Object(d), NO_TEMPLATES);
    assert errs == ErrorsThere(v, NO_TEMPLATES, s);
    forall e ensures e in errs <==> SomeBlame(v, NO_TEMPLATES, s, e) {
      ThereBlame(v, NO_TEMPLATES, s, e);
    }
    BlameOrNot(v, NO_TEMPLATES, s, errs);
  }

  /** Nothing is unexplained exactly if there is nothing to blame. */
  lemma {:induction false} BlameOrNot(v: Validator, t: Templates, s: Spot, errs: set<Error>)
    requires forall e :: e in errs <==> SomeBlame(v, t, s, e)
    ensures errs == {} <==> AllExplained(v, t, s)
    ensures Panicking(errs) <==> exists at :: SomeBlame(v, t, s, Error(at, Panics))
  {
    if keys :| Stopping(t, s, keys) && !Explained(v, t, s, keys) {
      var e := UnexplainedIsBlamed(v, t, s, keys);
      assert SomeBlame(v, t, s, e);
    }
    if errs != {} {
      var e :| e in errs;
      assert SomeBlame(v, t, s, e);
    }
    if Panicking(errs) {
      var e :| e in errs && e.reason == Panics;
      assert SomeBlame(v, t, s, e) && e == Error(e.path, Panics);
    }
  }

  /** The verdict is that of the first template that is not passed over. */
  lemma {:induction false} MatchedTemplate(v: Validator, path: Path, d: Definition, ts: seq<Template>)
    ensures MatchTemplates(v, path, d, ts) == Accepted <==> TemplatesAccept(v, path, d, ts)
    ensures MatchTemplates(v, path, d, ts) == Panicked <==> TemplatesPanic(v, path, d, ts)
    decreases RankOf(ts), Object(d), 10, |ts|
  {
    if |ts| != 0 {
      AcceptingTemplate(v, path, d, ts);
      PanickingTemplate(v, path, d, ts);
      if ts[0].matcher(path) == Matches {
        TemplateMeaning(v, path, d, ts[0]);
      }
      MatchedTemplate(v, path, d, ts[1..]);
    }
  }

  lemma SchemaBlame(v: Validator, path: Path, d: Definition, e: Error)
    ensures e in SchemaErrors(v, path, d) <==> e.path == path && SchemaFault(v, path, d, e.reason)
    ensures SchemaAccepts(v, path, d) <==> forall r :: !SchemaFault(v, path, d, r)
  {
    if forall r :: !SchemaFault(v, path, d, r) {
      assert !SchemaFault(v, path, d, NotInSchema) && !SchemaFault(v, path, d, OtherType);
      assert !SchemaFault(v, path, d, OtherMetric);
    }
  }

  lemma EmptyObjectIs(d: Definition)
    ensures IsEmptyObject(d) <==> d == map["type" := Str("object")]
  {
    if IsEmptyObject(d) {
      var rest := d.Keys - {"type"};
      assert |d| == |d.Keys| == |rest| + 1;
      assert d.Keys == {"type"};
    }
  }

  lemma {:induction false} NewDefinitionBlame(v: Validator, path: Path, d: Definition, ts: seq<Template>, e: Error)
    ensures e in NewDefinitionErrors(v, path, d, ts)
       <==> !NewAccepted(v, Parsed(ts), path, d) && e.path == path && DueNew(v, ts, path, d, e.reason)
    decreases RankOf(ts), Object(d), 11
  {
    MatchedTemplate(v, path, d, ts);
    SchemaBlame(v, path, d, e);
    EmptyObjectIs(d);
  }

  /** What is here is new to the preview. */
  predicate NewHere(s: Spot) {
    && !s.names && s.actual.Object? && IsNew(s)
    && (s.preview.Some? ==> !IsConstantKeyword(s.actual.fields))
  }

  lemma {:induction false} WholeIsFlat(v: Validator, t: Templates, s: Spot)
    requires NewHere(s) && Whole(s) && t.Parsed?
    ensures NotInPreviewErrors(v, s.path, s.actual.fields, t)
         == NewDefinitionErrors(v, s.path, s.actual.fields, t.list)
  {
    var d := s.actual.fields;
    assert Flattened(s.path, d) == {(s.path, d)};
    assert (s.path, d) in Flattened(s.path, d);
  }

  /** A new object that is not judged as a whole is judged property by property. */
  lemma {:induction false} ErrorsOfProperties(v: Validator, t: Templates, path: Path, d: Definition, e: Error)
    requires t.Parsed? && IsObject(d) && !IsMultiFields(d)
    ensures var props := d["properties"].fields;
            e in NotInPreviewErrors(v, path, d, t)
            <==> exists k :: k in props && props[k].Object?
                             && e in NotInPreviewErrors(v, Under(path, k), props[k].fields, t)
  {
    var props := d["properties"].fields;
    if e in NotInPreviewErrors(v, path, d, t) {
      var x :| x in Flattened(path, d) && e in NewDefinitionErrors(v, x.0, x.1, t.list);
      var k :| k in props && props[k].Object? && x in Flattened(Under(path, k), props[k].fields);
      assert e in NotInPreviewErrors(v, Under(path, k), props[k].fields, t);
    }
    if k :| k in props && props[k].Object? && e in NotInPreviewErrors(v, Under(path, k), props[k].fields, t) {
      assert Flattened(Under(path, k), props[k].fields) <= Flattened(path, d);
    }
  }

  /** From a new object to its properties. */
  lemma {:induction false} TwoSteps(v: Validator, t: Templates, s: Spot, e: Error)
    requires NewHere(s) && !Whole(s) && t.Parsed? && !Justified(v, t, s)
    ensures var props := s.actual.fields["properties"].fields;
            SomeBlame(v, t, s, e)
            <==> exists k :: k in props && props[k].Object?
                             && SomeBlame(v, t, Spot(Under(s.path, k), false, None, props[k]), e)
  {
    var s' := Step(s, "properties");
    var props := s.actual.fields["properties"].fields;
    assert s' == Spot(s.path, true, None, s.actual.fields["properties"]);
    BlameOnward(v, t, s, e);
    assert SomeBlame(v, t, s, e) <==> SomeBlame(v, t, s', e) by {
      assert GoesOn(s, "properties") && !SkippedAt(v, s, "properties");
    }
    BlameOnward(v, t, s', e);
    forall k ensures GoesOn(s', k) <==> k in props && props[k].Object?
             ensures GoesOn(s', k) ==> Step(s', k) == Spot(Under(s.path, k), false, None, props[k])
    {
    }
  }

  /** What is reported for a new definition is what places below it are to blame for. */
  lemma {:induction false} NewBlame(v: Validator, t: Templates, s: Spot, e: Error)
    requires NewHere(s) && !Justified(v, t, s)
    ensures e in NotInPreviewErrors(v, s.path, s.actual.fields, t) <==> SomeBlame(v, t, s, e)
    decreases Rank(t), s.actual, 12
  {
    var d := s.actual.fields;
    if t.Malformed? || Whole(s) {
      BlameHere(v, t, s, e);
      if t.Parsed? {
        WholeIsFlat(v, t, s);
        NewDefinitionBlame(v, s.path, d, t.list, e);
      }
    } else {
      var props := d["properties"].fields;
      ErrorsOfProperties(v, t, s.path, d, e);
      TwoSteps(v, t, s, e);
      forall k | k in props && props[k].Object?
        ensures e in NotInPreviewErrors(v, Under(s.path, k), props[k].fields, t)
           <==> SomeBlame(v, t, Spot(Under(s.path, k), false, None, props[k]), e)
      {
        NewPropertyBlame(v, t, Spot(Under(s.path, k), false, None, props[k]), e);
      }
    }
  }

  lemma {:induction false} NewPropertyBlame(v: Validator, t: Templates, s: Spot, e: Error)
    requires !s.names && s.preview.None? && s.actual.Object? && t.Parsed?
    ensures e in NotInPreviewErrors(v, s.path, s.actual.fields, t) <==> SomeBlame(v, t, s, e)
    decreases Rank(t), s.actual, 13
  {
    if Justified(v, t, s) {
      NoBlame(v, t, s, e);
      WholeIsFlat(v, t, s);
      NewDefinitionBlame(v, s.path, s.actual.fields, t.list, e);
    } else {
      NewBlame(v, t, s, e);
    }
  }

  // ----- The whole comparison

  /** A place that both the mapping and the preview have, as a map. */
  predicate Compared(s: Spot) {
    s.actual.Object? && s.preview.Some? && s.preview.value.Object?
  }

  ghost function ErrorsAt(v: Validator, t: Templates, s: Spot): set<Error>
    requires Compared(s)
  {
    CompareErrors(v, s.path, !s.names, s.preview.value.fields, s.actual.fields, t)
  }

  /** The key is one of those that are compared one by one. */
  predicate IsProperty(s: Spot, k: string) {
    && Compared(s) && k in s.actual.fields
    && (s.names || !IsObject(s.actual.fields)) && !(IsMultiFields(s.actual.fields) && k == "fields")
  }

  ghost function ErrorsUnder(v: Validator, t: Templates, s: Spot, k: string): set<Error>
    requires IsProperty(s, k)
  {
    PropertyErrors(v, s.path, IsMultiFields(s.actual.fields), s.preview.value.fields, s.actual.fields, k, t)
  }

  /** What is reported for the value under a key that is not skipped. */
  ghost function ErrorsThere(v: Validator, t: Templates, s: Spot): set<Error> {
    if s.preview.None? then
      if !s.actual.Object? then {Error(s.path, UndefinedField)}
      else if IsEmptyObject(s.actual.fields) then {}
      else NotInPreviewErrors(v, s.path, s.actual.fields, t)
    else if s.actual.Object? then
      if s.preview.value.Object? then CompareErrors(v, s.path, true, s.preview.value.fields, s.actual.fields, t)
      else {Error(s.path, PreviewNotObject)}
    else if s.actual.Null? then {}
    else ParameterErrors(s.path, s.preview.value, s.actual)
  }

  lemma ErrorsUnderAre(v: Validator, t: Templates, s: Spot, k: string)
    requires IsProperty(s, k)
    ensures ErrorsUnder(v, t, s, k) == if SkippedAt(v, s, k) then {} else ErrorsThere(v, t, Step(s, k))
    ensures !Step(s, k).names
  {
    var p, d := s.preview.value.fields, s.actual.fields;
    assert Step(s, k) == Spot(Under(s.path, k), false, PreviewAt(s.preview, k), d[k]);
    assert SkippedAt(v, s, k) == SkipValidation(v, Under(s.path, k));
    if k in p && d[k].Object? {
      assert ErrorsUnder(v, t, s, k)
          == if SkippedAt(v, s, k) then {} else CompareObjects(v, Under(s.path, k), p[k], d[k], t);
    }
  }

  /** Where the comparison goes on, key by key. */
  lemma {:induction false} ErrorsAreThose(v: Validator, t: Templates, s: Spot, e: Error)
    requires Compared(s) && !Stops(t, s) && !Justified(v, t, s) && (s.names || !IsObject(s.actual.fields))
    ensures IsMultiFields(s.actual.fields) ==> "fields" in s.actual.fields && Compared(Step(s, "fields"))
    ensures e in ErrorsAt(v, t, s)
       <==> || (IsMultiFields(s.actual.fields) && e in ErrorsAt(v, t, Step(s, "fields")))
            || exists k :: IsProperty(s, k) && e in ErrorsUnder(v, t, s, k)
  {
    var p, d := s.preview.value.fields, s.actual.fields;
    var multi := IsMultiFields(d);
    assert ErrorsAt(v, t, s)
        == (if multi then ErrorsAt(v, t, Step(s, "fields")) else {}) + PropertiesErrors(v, s.path, multi, p, d, t);
    if e in PropertiesErrors(v, s.path, multi, p, d, t) {
      var k :| k in d && e in PropertyErrors(v, s.path, multi, p, d, k, t);
      assert IsProperty(s, k) && e in ErrorsUnder(v, t, s, k);
    }
  }

  lemma {:induction false} PropertyBlame(v: Validator, t: Templates, s: Spot, k: string, e: Error)
    requires IsProperty(s, k)
    ensures e in ErrorsUnder(v, t, s, k) <==> !SkippedAt(v, s, k) && SomeBlame(v, t, Step(s, k), e)
    decreases Rank(t), s.actual, 14
  {
    ErrorsUnderAre(v, t, s, k);
    ThereBlame(v, t, Step(s, k), e);
  }

  /** What is reported for the value under a key is what places there are to blame for. */
  lemma {:induction false} ThereBlame(v: Validator, t: Templates, s: Spot, e: Error)
    requires !s.names
    ensures e in ErrorsThere(v, t, s) <==> SomeBlame(v, t, s, e)
    decreases Rank(t), s.actual, 16
  {
    if Compared(s) {
      ErrorsExactly(v, t, s, e);
    } else if s.preview.None? && s.actual.Object? {
      EmptyObjectIs(s.actual.fields);
      if Justified(v, t, s) {
        NoBlame(v, t, s, e);
        if t.Parsed? {
          WholeIsFlat(v, t, s);
          NewDefinitionBlame(v, s.path, s.actual.fields, t.list, e);
        }
      } else {
        EmptyIsWhole(v, t, s);
        NewBlame(v, t, s, e);
      }
    } else {
      BlameHere(v, t, s, e);
    }
  }

  lemma {:induction false} EmptyIsWhole(v: Validator, t: Templates, s: Spot)
    requires !s.names && s.preview.None? && s.actual.Object? && !Justified(v, t, s)
    ensures !IsEmptyObject(s.actual.fields)
  {
    EmptyObjectIs(s.actual.fields);
  }

  lemma ObjectIsNotEmpty(d: Definition)
    requires IsObject(d)
    ensures !IsEmptyObject(d)
  {
    EmptyObjectIs(d);
  }

  lemma {:induction false} JustifiedHasNoErrors(v: Validator, t: Templates, s: Spot, e: Error)
    requires Compared(s) && Justified(v, t, s)
    ensures e !in ErrorsAt(v, t, s)
    decreases Rank(t), s.actual, 14
  {
    var d := s.actual.fields;
    if !IsConstantKeyword(d) && s.path !in v.exceptions && !IsObjectFullyDynamic(d) {
      ObjectIsNotEmpty(d);
      EmptyObjectIs(d);
      WholeIsFlat(v, t, s);
      NewDefinitionBlame(v, s.path, d, t.list, e);
    }
  }

  /** An error is reported exactly if some place where the comparison ends is to blame for it. */
  lemma {:induction false} ErrorsExactly(v: Validator, t: Templates, s: Spot, e: Error)
    requires Compared(s)
    ensures e in ErrorsAt(v, t, s) <==> SomeBlame(v, t, s, e)
    decreases Rank(t), s.actual, 15
  {
    var d := s.actual.fields;
    if Justified(v, t, s) {
      NoBlame(v, t, s, e);
      JustifiedHasNoErrors(v, t, s, e);
    } else if NewHere(s) {
      NewBlame(v, t, s, e);
    } else if Stops(t, s) {
      BlameHere(v, t, s, e);
    } else if !s.names && IsObject(d) {
      BlameOnward(v, t, s, e);
      ErrorsExactly(v, t, Step(s, "properties"), e);
    } else {
      BlameOnward(v, t, s, e);
      ErrorsAreThose(v, t, s, e);
      if IsMultiFields(d) {
        ErrorsExactly(v, t, Step(s, "fields"), e);
      }
      forall k | IsProperty(s, k)
        ensures e in ErrorsUnder(v, t, s, k) <==> !SkippedAt(v, s, k) && SomeBlame(v, t, Step(s, k), e)
      {
        PropertyBlame(v, t, s, k, e);
      }
    }
    assert SomeBlame(v, t, s, e) <==> exists keys :: Blamed(v, t, s, keys, e);
  }

  /** There is nothing to report exactly if something accounts for every place where the comparison ends. */
  lemma {:induction false} AcceptedExactly(v: Validator, t: Templates, s: Spot)
    requires Compared(s)
    ensures ErrorsAt(v, t, s) == {} <==> AllExplained(v, t, s)
  {
    forall e ensures e in ErrorsAt(v, t, s) <==> SomeBlame(v, t, s, e) {
      ErrorsExactly(v, t, s, e);
    }
    BlameOrNot(v, t, s, ErrorsAt(v, t, s));
  }

  /** The same for a definition that is not in the preview. */
  lemma {:induction false} NewErrorsExactly(v: Validator, t: Templates, s: Spot, e: Error)
    requires s.preview.None? && !s.names && s.actual.Object? && (t.Malformed? ==> !IsEmptyObject(s.actual.fields))
    ensures e in NotInPreviewErrors(v, s.path, s.actual.fields, t) <==> SomeBlame(v, t, s, e)
  {
    if t.Parsed? {
      NewPropertyBlame(v, t, s, e);
    } else {
      EmptyObjectIs(s.actual.fields);
      NewBlame(v, t, s, e);
    }
    assert SomeBlame(v, t, s, e) <==> exists keys :: Blamed(v, t, s, keys, e);
  }

  lemma {:induction false} NewAcceptedExactly(v: Validator, t: Templates, s: Spot)
    requires s.preview.None? && !s.names && s.actual.Object? && (t.Malformed? ==> !IsEmptyObject(s.actual.fields))
    ensures NotInPreviewErrors(v, s.path, s.actual.fields, t) == {}
       <==> AllExplained(v, t, s)
  {
    var errs := NotInPreviewErrors(v, s.path, s.actual.fields, t);
    forall e ensures e in errs <==> SomeBlame(v, t, s, e) {
      NewErrorsExactly(v, t, s, e);
    }
    BlameOrNot(v, t, s, errs);
  }

  // ----- Leaves

  /** On the way to a leaf that is followed, the comparison ends somewhere. */
  lemma {:induction false} LeafHasStop(t: Templates, s: Spot, keys: seq<string>) returns (n: nat)
    requires LeadsToLeaf(s, keys)
    ensures n <= |keys| && Stopping(t, s, keys[..n])
    decreases |keys|
  {
    n := 0;
    if !Stops(t, s) {
      var m := LeafHasStop(t, Step(s, keys[0]), keys[1..]);
      n := m + 1;
      assert keys[..n][0] == keys[0] && keys[..n][1..] == keys[1..][..m];
    }
  }

  lemma {:induction false} ExplainedOnward(v: Validator, t: Templates, s: Spot, keys: seq<string>, n: nat)
    requires n <= |keys| && Explained(v, t, s, keys[..n])
    ensures Explained(v, t, s, keys)
    decreases n
  {
    if !Justified(v, t, s) && !SkippedAt(v, s, keys[0]) {
      assert keys[..n][0] == keys[0] && keys[..n][1..] == keys[1..][..n - 1];
      ExplainedOnward(v, t, Step(s, keys[0]), keys[1..], n - 1);
    }
  }

  /** If there is nothing to report, something accounts for every leaf that is looked at. */
  lemma {:induction false} AcceptedIsExplained(v: Validator, t: Templates, s: Spot, keys: seq<string>)
    requires Compared(s) && LeadsToLeaf(s, keys) && ErrorsAt(v, t, s) == {}
    ensures Explained(v, t, s, keys)
  {
    var n := LeafHasStop(t, s, keys);
    AcceptedExactly(v, t, s);
    ExplainedOnward(v, t, s, keys, n);
  }

  /** The same below a definition that is not in the preview. */
  lemma {:induction false} NewIsExplained(v: Validator, t: Templates, s: Spot, keys: seq<string>)
    requires NewHere(s) && LeadsToLeaf(s, keys) && NotInPreviewErrors(v, s.path, s.actual.fields, t) == {}
    ensures Explained(v, t, s, keys)
  {
    var n := LeafHasStop(t, s, keys);
    if !Explained(v, t, s, keys[..n]) {
      var e := UnexplainedIsBlamed(v, t, s, keys[..n]);
      NewBlame(v, t, s, e);
      assert SomeBlame(v, t, s, e);
    }
    ExplainedOnward(v, t, s, keys, n);
  }
}
