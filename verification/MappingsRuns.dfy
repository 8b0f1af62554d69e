/**
 * What a run may report. Flattened definitions are kept by their dotted path, so where two have the same path the
 * order in which the keys are taken decides which one stays.
 */
module MappingsRuns {
  import opened DottedKeys
  import opened Mappings

  /** For every path among the flattened definitions, one that has it. */
  ghost predicate Chosen(m: map<Path, Definition>, path: Path, d: Definition) {
    && (forall p | p in m :: (p, m[p]) in Flattened(path, d))
    && (forall x | x in Flattened(path, d) :: x.0 in m)
  }

  /** The definitions that some of the fields of an object are flattened into. */
  function FlattenedUnder(path: Path, props: Definition, ks: set<string>): set<(Path, Definition)>
    requires ks <= props.Keys
  {
    set k, x | k in ks && props[k].Object? && x in Flattened(Under(path, k), props[k].fields) :: x
  }

  function Union(f: map<string, set<Error>>): set<Error> {
    set k, e | k in f && e in f[k] :: e
  }

  ghost predicate MayMatch(v: Validator, path: Path, d: Definition, ts: seq<Template>, verdict: Verdict)
    decreases (if |ts| == 0 then 0 else 1), Object(d), 2, |ts|
  {
    if |ts| == 0 then verdict == Rejected else
    match ts[0].matcher(path)
    case MatchError => verdict == Rejected
    case NoMatch => MayMatch(v, path, d, ts[1..], verdict)
    case Matches =>
      exists errs :: MayCompareObjects(v, path, ts[0].mapping, Object(d), NO_TEMPLATES, errs)
                     && if errs == {} || Panicking(errs) then verdict == Try(errs, verdict)
                        else MayMatch(v, path, d, ts[1..], verdict)
  }

  ghost predicate MayReportDefinition(v: Validator, path: Path, d: Definition, ts: seq<Template>, errs: set<Error>)
    decreases (if |ts| == 0 then 0 else 1), Object(d), 3
  {
    if path in v.exceptions || IsEmptyObject(d) then errs == {}
    else
      || (MayMatch(v, path, d, ts, Accepted) && errs == {})
      || (MayMatch(v, path, d, ts, Panicked) && errs == {Error(path, Panics)})
      || (MayMatch(v, path, d, ts, Rejected) && errs == SchemaErrors(v, path, d))
  }

  /** The definitions that stay, and what is reported for each. */
  ghost predicate DefinitionsRun(v: Validator, path: Path, d: Definition, ts: seq<Template>, m: map<Path, Definition>,
                                 f: map<Path, set<Error>>)
    decreases (if |ts| == 0 then 0 else 1), Object(d), 4
  {
    && Chosen(m, path, d) && f.Keys == m.Keys
    && forall p | p in m :: (p, m[p]) in Flattened(path, d) && MayReportDefinition(v, p, m[p], ts, f[p])
  }

  ghost predicate MayReportNew(v: Validator, path: Path, d: Definition, t: Templates, errs: set<Error>)
    decreases Rank(t), Object(d), 5
  {
    match t
    case Malformed => errs == {Error(path, BadTemplates)}
    case Parsed(ts) => exists m, f :: DefinitionsRun(v, path, d, ts, m, f) && errs == Union(f)
  }

  ghost predicate MayCompare(v: Validator, path: Path, parameters: bool, preview: Definition, actual: Definition,
                             t: Templates, errs: set<Error>)
    decreases Rank(t), Object(actual), 9
  {
    if IsConstantKeyword(actual) then errs == ConstantKeywordErrors(path, preview, actual)
    else if path in v.exceptions || IsObjectFullyDynamic(actual) then errs == {}
    else if parameters && IsObject(actual) then
      if IsObjectFullyDynamic(preview) then MayReportNew(v, path, actual, t, errs)
      else if !IsObject(preview) then
        if AllowsDynamicChildren(preview, actual) then MayReportNew(v, path, actual, t, errs)
        else errs == {Error(path, UndefinedMappings)}
      else
        MayCompare(v, path, false, preview["properties"].fields, actual["properties"].fields, t, errs)
    else if IsMultiFields(actual) then
      if !IsMultiFields(preview) then errs == {Error(path, UndefinedMultiFields)}
      else
        exists sub, rest ::
          && MayCompare(v, path, false, preview["fields"].fields, actual["fields"].fields, t, sub)
          && MayReportProperties(v, path, true, preview, actual, t, rest) && errs == sub + rest
    else MayReportProperties(v, path, false, preview, actual, t, errs)
  }

  ghost predicate MayReportProperties(v: Validator, path: Path, multi: bool, preview: Definition, actual: Definition,
                                      t: Templates, errs: set<Error>)
    decreases Rank(t), Object(actual), 8
  {
    exists f :: PropertiesRun(v, path, multi, preview, actual, t, f) && errs == Union(f)
  }

  /** What is reported for each key. */
  ghost predicate PropertiesRun(v: Validator, path: Path, multi: bool, preview: Definition, actual: Definition,
                                t: Templates, f: map<string, set<Error>>)
    decreases Rank(t), Object(actual), 7
  {
    f.Keys == actual.Keys && forall k | k in actual :: MayReportProperty(v, path, multi, preview, actual, k, t, f[k])
  }

  ghost predicate MayReportProperty(v: Validator, path: Path, multi: bool, preview: Definition, actual: Definition,
                                    k: string, t: Templates, errs: set<Error>)
    requires k in actual
    decreases Rank(t), Object(actual), 6
  {
    var here := Under(path, k);
    if (multi && k == "fields") || SkipValidation(v, here) then errs == {}
    else if k !in preview then
      match actual[k]
      case Object(d) => if IsEmptyObject(d) then errs == {} else MayReportNew(v, here, d, t, errs)
      case _ => errs == {Error(here, UndefinedField)}
    else
      match actual[k]
      case Object(_) => MayCompareObjects(v, here, preview[k], actual[k], t, errs)
      case Null => errs == {}
      case _ => errs == ParameterErrors(here, preview[k], actual[k])
  }

  ghost predicate MayCompareObjects(v: Validator, path: Path, preview: Value, actual: Value, t: Templates,
                                    errs: set<Error>)
    decreases Rank(t), actual, 10
  {
    if !preview.Object? then errs == {Error(path, PreviewNotObject)}
    else if !actual.Object? then errs == {Error(path, ActualNotObject)}
    else MayCompare(v, path, true, preview.fields, actual.fields, t, errs)
  }

  // ----- Fields whose paths do not meet

  /** No two of the definitions that this is flattened into have one path, and so on for everything below. */
  ghost predicate Unmet(path: Path, d: Definition)
    decreases Object(d)
  {
    && (forall x, y | x in Flattened(path, d) && y in Flattened(path, d) && x.0 == y.0 :: x == y)
    && (forall k | k in d && d[k].Object? ::
          && (k == "properties" || k == "fields" ==> Unmet(path, d[k].fields))
          && Unmet(Under(path, k), d[k].fields))
  }

  /** No name of a property is empty or has a dot, at any depth. */
  ghost predicate CleanFields(d: Definition)
    decreases Object(d)
  {
    forall k | k in d && d[k].Object? ::
      CleanFields(d[k].fields) && (k == "properties" ==> forall name | name in d[k].fields :: CleanName(name))
  }

  predicate CleanName(name: string) {
    name != "" && '.' !in name
  }

  /** `p` is `path` or goes on from it. */
  predicate Extends(p: Path, path: Path) {
    p == path || path + "." <= p
  }

  lemma {:induction false} FlattenedExtends(path: Path, d: Definition, x: (Path, Definition))
    requires path != "" && x in Flattened(path, d)
    ensures Extends(x.0, path)
    decreases Object(d)
  {
    if !IsMultiFields(d) && IsObject(d) {
      var props := d["properties"].fields;
      var k :| k in props && props[k].Object? && x in Flattened(Under(path, k), props[k].fields);
      FlattenedExtends(Under(path, k), props[k].fields, x);
      Onward(x.0, path, k);
    }
  }

  lemma Onward(p: Path, path: Path, k: string)
    requires path != "" && Extends(p, Under(path, k))
    ensures Extends(p, path)
  {
    assert path + "." <= Under(path, k);
  }

  lemma LongerNameHasDot(p: string, j: string, k: string)
    requires Extends(p, j) && Extends(p, k)
    ensures |j| < |k| ==> '.' in k
    ensures |j| == |k| ==> j == k
  {
    assert p[..|j|] == j && p[..|k|] == k;
    assert |j| < |k| ==> p[|j|] == '.' && k[|j|] == p[|j|];
  }

  /** Without `path` before them. */
  lemma ExtendsName(p: Path, path: Path, k: string)
    requires Extends(p, Under(path, k))
    ensures |Under(path, "")| <= |p| && Extends(p[|Under(path, "")|..], k)
  {
    assert Under(path, k) == Under(path, "") + k;
  }

  lemma OneWay(p: Path, path: Path, j: string, k: string)
    requires CleanName(j) && CleanName(k) && Extends(p, Under(path, j)) && Extends(p, Under(path, k))
    ensures j == k
  {
    var rest := p[|Under(path, "")|..];
    ExtendsName(p, path, j);
    ExtendsName(p, path, k);
    LongerNameHasDot(rest, j, k);
    LongerNameHasDot(rest, k, j);
  }

  /** With clean names there is one flattened definition for each path. */
  lemma {:induction false} PathsDoNotMeet(path: Path, d: Definition, x: (Path, Definition), y: (Path, Definition))
    requires CleanFields(d) && x in Flattened(path, d) && y in Flattened(path, d) && x.0 == y.0
    ensures x == y
    decreases Object(d)
  {
    if !IsMultiFields(d) && IsObject(d) {
      var props := d["properties"].fields;
      var j :| j in props && props[j].Object? && x in Flattened(Under(path, j), props[j].fields);
      var k :| k in props && props[k].Object? && y in Flattened(Under(path, k), props[k].fields);
      FlattenedExtends(Under(path, j), props[j].fields, x);
      FlattenedExtends(Under(path, k), props[k].fields, y);
      OneWay(x.0, path, j, k);
      PathsDoNotMeet(Under(path, j), props[j].fields, x, y);
    }
  }

  lemma {:induction false} CleanFieldsAreUnmet(path: Path, d: Definition)
    requires CleanFields(d)
    ensures Unmet(path, d)
    decreases Object(d)
  {
    forall x, y | x in Flattened(path, d) && y in Flattened(path, d) && x.0 == y.0 ensures x == y {
      PathsDoNotMeet(path, d, x, y);
    }
    forall k | k in d && d[k].Object? ensures Unmet(path, d[k].fields) && Unmet(Under(path, k), d[k].fields) {
      CleanFieldsAreUnmet(path, d[k].fields);
      CleanFieldsAreUnmet(Under(path, k), d[k].fields);
    }
  }

  /** When no paths meet nothing is lost. */
  lemma {:induction false} AllChosen(m: map<Path, Definition>, path: Path, d: Definition)
    requires Unmet(path, d) && Chosen(m, path, d)
    ensures forall x :: x in Flattened(path, d) <==> x.0 in m && m[x.0] == x.1
  {
    forall x | x in Flattened(path, d) ensures x.0 in m && m[x.0] == x.1 {
      assert (x.0, m[x.0]) in Flattened(path, d);
    }
    forall x: (Path, Definition) | x.0 in m && m[x.0] == x.1 ensures x in Flattened(path, d) {
      assert x == (x.0, m[x.0]);
    }
  }

  lemma {:induction false} FlattenedAreUnmet(path: Path, d: Definition, x: (Path, Definition))
    requires Unmet(path, d) && x in Flattened(path, d)
    ensures Unmet(x.0, x.1)
    decreases Object(d)
  {
    if !IsMultiFields(d) && IsObject(d) {
      var props := d["properties"].fields;
      var k :| k in props && props[k].Object? && x in Flattened(Under(path, k), props[k].fields);
      assert Unmet(path, props);
      FlattenedAreUnmet(Under(path, k), props[k].fields, x);
    }
  }

  // ----- Every run stays within the specification, and where no paths meet is the specification

  lemma {:induction false} MatchRun(v: Validator, path: Path, d: Definition, ts: seq<Template>, verdict: Verdict)
    requires MayMatch(v, path, d, ts, verdict)
    ensures NoWorse(verdict, MatchTemplates(v, path, d, ts))
    ensures Unmet(path, d) ==> verdict == MatchTemplates(v, path, d, ts)
    decreases (if |ts| == 0 then 0 else 1), Object(d), 2, |ts|
  {
    if |ts| != 0 {
      match ts[0].matcher(path)
      case MatchError =>
      case NoMatch => MatchRun(v, path, d, ts[1..], verdict);
      case Matches =>
        var errs :| MayCompareObjects(v, path, ts[0].mapping, Object(d), NO_TEMPLATES, errs)
                    && if errs == {} || Panicking(errs) then verdict == Try(errs, verdict)
                       else MayMatch(v, path, d, ts[1..], verdict);
        ObjectsRun(v, path, ts[0].mapping, Object(d), NO_TEMPLATES, errs);
        var others := MatchTemplates(v, path, d, ts[1..]);
        if errs == {} || Panicking(errs) {
          TryNoWorse(errs, CompareObjects(v, path, ts[0].mapping, Object(d), NO_TEMPLATES), others, others);
        } else {
          MatchRun(v, path, d, ts[1..], verdict);
          TryNoWorse(errs, CompareObjects(v, path, ts[0].mapping, Object(d), NO_TEMPLATES), verdict, others);
        }
    }
  }

  lemma {:induction false} DefinitionRun(v: Validator, path: Path, d: Definition, ts: seq<Template>, errs: set<Error>)
    requires MayReportDefinition(v, path, d, ts, errs)
    ensures NoNewErrors(errs, NewDefinitionErrors(v, path, d, ts))
    ensures Unmet(path, d) ==> errs == NewDefinitionErrors(v, path, d, ts)
    decreases (if |ts| == 0 then 0 else 1), Object(d), 3
  {
    if path !in v.exceptions && !IsEmptyObject(d) {
      var verdict :| MayMatch(v, path, d, ts, verdict)
        && errs == if verdict == Accepted then {} else if verdict == Panicked then {Error(path, Panics)}
                   else SchemaErrors(v, path, d);
      MatchRun(v, path, d, ts, verdict);
      if MatchTemplates(v, path, d, ts) == Panicked {
        assert Error(path, Panics) in NewDefinitionErrors(v, path, d, ts);
      }
    }
  }

  lemma {:induction false} NewRun(v: Validator, path: Path, d: Definition, t: Templates, errs: set<Error>)
    requires MayReportNew(v, path, d, t, errs)
    ensures NoNewErrors(errs, NotInPreviewErrors(v, path, d, t))
    ensures Unmet(path, d) ==> errs == NotInPreviewErrors(v, path, d, t)
    decreases Rank(t), Object(d), 5
  {
    if t.Parsed? {
      var m, f :| DefinitionsRun(v, path, d, t.list, m, f) && errs == Union(f);
      DefinitionsAreRun(v, path, d, t.list, m, f);
      UnionIsWithin(v, path, d, t, m, f);
      if Unmet(path, d) {
        ChosenAreUnmet(path, d, m);
        UnionIsAll(v, path, d, t, m, f);
      }
    }
  }

  lemma {:induction false} DefinitionsAreRun(v: Validator, path: Path, d: Definition, ts: seq<Template>,
                                             m: map<Path, Definition>, f: map<Path, set<Error>>)
    requires DefinitionsRun(v, path, d, ts, m, f)
    ensures forall p | p in m ::
      && NoNewErrors(f[p], NewDefinitionErrors(v, p, m[p], ts))
      && (Unmet(p, m[p]) ==> f[p] == NewDefinitionErrors(v, p, m[p], ts))
    decreases (if |ts| == 0 then 0 else 1), Object(d), 4
  {
    forall p | p in m
      ensures NoNewErrors(f[p], NewDefinitionErrors(v, p, m[p], ts))
      ensures Unmet(p, m[p]) ==> f[p] == NewDefinitionErrors(v, p, m[p], ts)
    {
      DefinitionRun(v, p, m[p], ts, f[p]);
    }
  }

  lemma {:induction false} ChosenAreUnmet(path: Path, d: Definition, m: map<Path, Definition>)
    requires Unmet(path, d) && Chosen(m, path, d)
    ensures forall p | p in m :: Unmet(p, m[p])
  {
    forall p | p in m ensures Unmet(p, m[p]) {
      FlattenedAreUnmet(path, d, (p, m[p]));
    }
  }

  lemma {:induction false} UnionIsWithin(v: Validator, path: Path, d: Definition, t: Templates,
                                         m: map<Path, Definition>, f: map<Path, set<Error>>)
    requires t.Parsed? && Chosen(m, path, d) && f.Keys == m.Keys
    requires forall p | p in m :: NoNewErrors(f[p], NewDefinitionErrors(v, p, m[p], t.list))
    ensures NoNewErrors(Union(f), NotInPreviewErrors(v, path, d, t))
  {
    var all := NotInPreviewErrors(v, path, d, t);
    forall p | p in m ensures Panicking(all) || f[p] <= all {
      assert (p, m[p]) in Flattened(path, d);
      assert NewDefinitionErrors(v, p, m[p], t.list) <= all;
      PartPanics(NewDefinitionErrors(v, p, m[p], t.list), all);
    }
  }

  lemma {:induction false} UnionIsAll(v: Validator, path: Path, d: Definition, t: Templates, m: map<Path, Definition>,
                                      f: map<Path, set<Error>>)
    requires t.Parsed? && Chosen(m, path, d) && f.Keys == m.Keys && Unmet(path, d)
    requires forall p | p in m :: f[p] == NewDefinitionErrors(v, p, m[p], t.list)
    ensures Union(f) == NotInPreviewErrors(v, path, d, t)
  {
    AllChosen(m, path, d);
    forall e | e in Union(f) ensures e in NotInPreviewErrors(v, path, d, t) {
      var p :| p in f && e in f[p];
      assert (p, m[p]) in Flattened(path, d);
    }
    forall e | e in NotInPreviewErrors(v, path, d, t) ensures e in Union(f) {
      var x :| x in Flattened(path, d) && e in NewDefinitionErrors(v, x.0, x.1, t.list);
      assert x.0 in f && e in f[x.0];
    }
  }

  lemma {:induction false} CompareRun(v: Validator, path: Path, parameters: bool, preview: Definition,
                                      actual: Definition, t: Templates, errs: set<Error>)
    requires MayCompare(v, path, parameters, preview, actual, t, errs)
    ensures NoNewErrors(errs, CompareErrors(v, path, parameters, preview, actual, t))
    ensures Unmet(path, actual) ==> errs == CompareErrors(v, path, parameters, preview, actual, t)
    decreases Rank(t), Object(actual), 9
  {
    if IsConstantKeyword(actual) || path in v.exceptions || IsObjectFullyDynamic(actual) {
    } else if parameters && IsObject(actual) {
      if IsObjectFullyDynamic(preview) || (!IsObject(preview) && AllowsDynamicChildren(preview, actual)) {
        NewRun(v, path, actual, t, errs);
      } else if IsObject(preview) {
        CompareRun(v, path, false, preview["properties"].fields, actual["properties"].fields, t, errs);
      }
    } else if IsMultiFields(actual) {
      if IsMultiFields(preview) {
        var sub, rest :|
          && MayCompare(v, path, false, preview["fields"].fields, actual["fields"].fields, t, sub)
          && MayReportProperties(v, path, true, preview, actual, t, rest) && errs == sub + rest;
        CompareRun(v, path, false, preview["fields"].fields, actual["fields"].fields, t, sub);
        PropertiesAreRun(v, path, true, preview, actual, t, rest);
        EitherPanics(CompareErrors(v, path, false, preview["fields"].fields, actual["fields"].fields, t),
                     PropertiesErrors(v, path, true, preview, actual, t));
      }
    } else {
      PropertiesAreRun(v, path, false, preview, actual, t, errs);
    }
  }

  lemma {:induction false} PropertiesAreRun(v: Validator, path: Path, multi: bool, preview: Definition,
                                            actual: Definition, t: Templates, errs: set<Error>)
    requires MayReportProperties(v, path, multi, preview, actual, t, errs)
    ensures NoNewErrors(errs, PropertiesErrors(v, path, multi, preview, actual, t))
    ensures Unmet(path, actual) ==> errs == PropertiesErrors(v, path, multi, preview, actual, t)
    decreases Rank(t), Object(actual), 8
  {
    var f :| PropertiesRun(v, path, multi, preview, actual, t, f) && errs == Union(f);
    var all := PropertiesErrors(v, path, multi, preview, actual, t);
    forall k | k in actual
      ensures Panicking(all) || f[k] <= all
      ensures Unmet(path, actual) ==> f[k] == PropertyErrors(v, path, multi, preview, actual, k, t)
    {
      PropertyRun(v, path, multi, preview, actual, k, t, f[k]);
      PartPanics(PropertyErrors(v, path, multi, preview, actual, k, t), all);
    }
  }

  lemma {:induction false} PropertyRun(v: Validator, path: Path, multi: bool, preview: Definition, actual: Definition,
                                       k: string, t: Templates, errs: set<Error>)
    requires k in actual && MayReportProperty(v, path, multi, preview, actual, k, t, errs)
    ensures NoNewErrors(errs, PropertyErrors(v, path, multi, preview, actual, k, t))
    ensures Unmet(path, actual) ==> errs == PropertyErrors(v, path, multi, preview, actual, k, t)
    decreases Rank(t), Object(actual), 6
  {
    var here := Under(path, k);
    if !(multi && k == "fields") && !SkipValidation(v, here) && actual[k].Object? {
      var d := actual[k].fields;
      if k in preview {
        ObjectsRun(v, here, preview[k], actual[k], t, errs);
      } else if !IsEmptyObject(d) {
        NewRun(v, here, d, t, errs);
      }
    }
  }

  lemma {:induction false} ObjectsRun(v: Validator, path: Path, preview: Value, actual: Value, t: Templates,
                                      errs: set<Error>)
    requires MayCompareObjects(v, path, preview, actual, t, errs)
    ensures NoNewErrors(errs, CompareObjects(v, path, preview, actual, t))
    ensures actual.Object? && Unmet(path, actual.fields) ==> errs == CompareObjects(v, path, preview, actual, t)
    decreases Rank(t), actual, 10
  {
    if preview.Object? && actual.Object? {
      CompareRun(v, path, true, preview.fields, actual.fields, t, errs);
    }
  }

  // ----- Fields whose paths meet

  function ObjectWith(props: Definition): Definition {
    map["properties" := Object(props)]
  }

  /** A property `ab` beside a property `b` of the property `a`. */
  function Meeting(ab: string, a: string, b: string, d1: Definition, d2: Definition): Definition {
    ObjectWith(map[ab := Object(d1), a := Object(ObjectWith(map[b := Object(d2)]))])
  }

  /** Of two properties with one path a run looks at either, so it may miss what is wrong with the other. */
  lemma {:induction false} MeetingFieldsHideErrors(v: Validator, path: Path, a: string, b: string, d1: Definition,
                                                   d2: Definition)
    requires path != "" && a != "" && Under(Under(path, a), b) !in v.exceptions
    requires !IsObject(d1) && !IsObject(d2) && !IsEmptyObject(d1) && !IsEmptyObject(d2)
    requires SchemaErrors(v, Under(Under(path, a), b), d1) != {} && SchemaErrors(v, Under(Under(path, a), b), d2) == {}
    ensures var d := Meeting(a + "." + b, a, b, d1, d2);
            && MayReportNew(v, path, d, NO_TEMPLATES, {})
            && MayReportNew(v, path, d, NO_TEMPLATES, SchemaErrors(v, Under(Under(path, a), b), d1))
            && NotInPreviewErrors(v, path, d, NO_TEMPLATES) != {}
  {
    var ab, p := a + "." + b, Under(Under(path, a), b);
    assert Under(path, ab) == p;
    assert |ab| > |a|;
    MayKeep(v, path, ab, a, b, p, d1, d2, d1);
    MayKeep(v, path, ab, a, b, p, d1, d2, d2);
    NewRun(v, path, Meeting(ab, a, b, d1, d2), NO_TEMPLATES, SchemaErrors(v, p, d1));
  }

  lemma {:induction false} MayKeep(v: Validator, path: Path, ab: string, a: string, b: string, p: Path, d1: Definition,
                                   d2: Definition, kept: Definition)
    requires Under(path, ab) == p == Under(Under(path, a), b) && ab != a && p !in v.exceptions
    requires kept == d1 || kept == d2
    requires !IsObject(d1) && !IsObject(d2) && !IsEmptyObject(kept)
    ensures MayReportNew(v, path, Meeting(ab, a, b, d1, d2), NO_TEMPLATES, SchemaErrors(v, p, kept))
  {
    MeetingFlattened(path, ab, a, b, p, d1, d2);
    OneDefinitionRun(v, path, Meeting(ab, a, b, d1, d2), p, kept);
  }

  lemma {:induction false} MeetingFlattened(path: Path, ab: string, a: string, b: string, p: Path, d1: Definition,
                                            d2: Definition)
    requires Under(path, ab) == p == Under(Under(path, a), b) && ab != a && !IsObject(d1) && !IsObject(d2)
    ensures Flattened(path, Meeting(ab, a, b, d1, d2)) == {(p, d1), (p, d2)}
  {
    FlattenedOne(Under(path, a), b, d2);
    FlattenedTwo(path, ab, d1, a, ObjectWith(map[b := Object(d2)]));
    FlattenedLeaf(p, d1);
    FlattenedLeaf(p, d2);
  }

  /** Where all flattened definitions have one path, a run may consist of any one of them. */
  lemma {:induction false} OneDefinitionRun(v: Validator, path: Path, d: Definition, p: Path, kept: Definition)
    requires (p, kept) in Flattened(path, d) && (forall x | x in Flattened(path, d) :: x.0 == p)
    requires p !in v.exceptions && !IsEmptyObject(kept)
    ensures MayReportNew(v, path, d, NO_TEMPLATES, SchemaErrors(v, p, kept))
  {
    var m, f := map[p := kept], map[p := SchemaErrors(v, p, kept)];
    assert Union(f) == SchemaErrors(v, p, kept) by {
      assert f[p] == SchemaErrors(v, p, kept);
    }
    assert Chosen(m, path, d);
    assert MayReportDefinition(v, p, m[p], [], f[p]);
    assert DefinitionsRun(v, path, d, [], m, f);
  }

  lemma {:induction false} FlattenedLeaf(path: Path, d: Definition)
    requires !IsObject(d)
    ensures Flattened(path, d) == {(path, d)}
  {
  }

  lemma {:induction false} FlattenedObject(path: Path, props: Definition)
    ensures Flattened(path, ObjectWith(props)) == FlattenedUnder(path, props, props.Keys)
  {
    var d := ObjectWith(props);
    assert IsObject(d) && !IsMultiFields(d) && d["properties"].fields == props;
  }

  lemma {:induction false} FlattenedOne(path: Path, k: string, d: Definition)
    ensures Flattened(path, ObjectWith(map[k := Object(d)])) == Flattened(Under(path, k), d)
  {
    var props := map[k := Object(d)];
    FlattenedObject(path, props);
    assert props[k] == Object(d);
  }

  lemma {:induction false} FlattenedTwo(path: Path, j: string, dj: Definition, k: string, dk: Definition)
    requires j != k
    ensures Flattened(path, ObjectWith(map[j := Object(dj), k := Object(dk)]))
         == Flattened(Under(path, j), dj) + Flattened(Under(path, k), dk)
  {
    var props := map[j := Object(dj), k := Object(dk)];
    FlattenedObject(path, props);
    assert props.Keys == {j, k} && props[j] == Object(dj) && props[k] == Object(dk);
  }
}
