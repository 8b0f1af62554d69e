/** Comparing the mappings of a data stream with the preview of its index template. */
module Mappings {
  import opened DottedKeys
  import opened KeyMatch
  import opened FieldLookup

  /** A JSON value in a mapping; `Scalar` stands for the numbers and booleans, `List` for the lists. */
  datatype Value = Null | Str(s: string) | Scalar(id: int) | List(id: int) | Object(fields: map<string, Value>)

  type Definition = map<string, Value>

  /** Where a definition is: the field names leading to it, with dots between them. */
  type Path = string

  datatype MatchResult = Matches | NoMatch | MatchError

  /** A dynamic template: what it says of a dotted path, and the mapping it gives to fields there. */
  datatype Template = Template(matcher: string -> MatchResult, mapping: Value)

  datatype Templates = Malformed | Parsed(list: seq<Template>)

  const NO_TEMPLATES := Parsed([])

  datatype Validator = Validator(exceptions: set<string>, schema: seq<FieldDefinition>, families: set<string>)

  datatype Reason =
    | NotConstantKeywordInPreview | OtherConstantKeywordValue
    | UndefinedMappings | UndefinedMultiFields | UndefinedField
    | PreviewNotObject | ActualNotObject | UnexpectedValue
    | BadTemplates | NotInSchema | OtherType | OtherMetric
    | Panics

  datatype Error = Error(path: Path, reason: Reason)

  /** What trying the templates comes to. */
  datatype Verdict = Accepted | Rejected | Panicked

  // ----- Paths

  /** The families of fields that are never validated. */
  const SKIPPED_FAMILIES := {"agent", "elastic_agent", "cloud", "event", "host", "metricset", "event.module"}

  predicate InFamily(family: string, key: string) {
    key == family || family + "." <= key
  }

  predicate SkipValidation(v: Validator, path: Path) {
    exists family | family in v.families :: InFamily(family, path)
  }

  /** With the families of the program, these are the paths that are never validated. */
  lemma SkippedPaths(v: Validator, path: Path)
    requires v.families == SKIPPED_FAMILIES
    ensures SkipValidation(v, path)
       <==> || path in {"agent", "elastic_agent", "cloud", "event", "host", "metricset"}
            || "agent." <= path || "elastic_agent." <= path || "cloud." <= path || "event." <= path
            || "host." <= path || "metricset." <= path
  {
  }

  // ----- Definitions

  function Parameter(field: string, d: Definition): string {
    if field in d && d[field].Str? then d[field].s else ""
  }

  predicate IsEmptyObject(d: Definition) {
    |d| == 1 && Parameter("type", d) == "object"
  }

  predicate IsObject(d: Definition) {
    "properties" in d && d["properties"].Object?
  }

  predicate IsObjectFullyDynamic(d: Definition) {
    && Parameter("type", d) == "object" && Parameter("dynamic", d) == "true"
    && ("properties" in d ==> d["properties"].Object? && d["properties"].fields == map[])
  }

  predicate IsMultiFields(d: Definition) {
    Parameter("type", d) != "" && "fields" in d && d["fields"].Object?
  }

  predicate IsNumberType(t: string) {
    t == "float" || t == "long" || t == "double"
  }

  predicate AllowsDynamicChildren(preview: Definition, actual: Definition) {
    Parameter("type", preview) == "nested" && Parameter("type", actual) == "nested"
  }

  /** The constant keyword check applies to this definition. */
  predicate IsConstantKeyword(d: Definition) {
    Parameter("type", d) == "constant_keyword"
  }

  function ConstantKeywordErrors(path: Path, preview: Definition, actual: Definition): set<Error> {
    if !IsConstantKeyword(actual) then {}
    else if !IsConstantKeyword(preview) then {Error(path, NotConstantKeywordInPreview)}
    else if Parameter("value", preview) != "" && Parameter("value", preview) != Parameter("value", actual)
    then {Error(path, OtherConstantKeywordValue)}
    else {}
  }

  /** Two parameters are the same, or both name a number type. */
  predicate Compatible(preview: Value, actual: Value) {
    || (preview == actual && !actual.List?)
    || (preview.Str? && actual.Str? && IsNumberType(preview.s) && IsNumberType(actual.s))
  }

  /** validateMappingParameter: lists cannot be compared with one another. */
  function ParameterErrors(path: Path, preview: Value, actual: Value): (errs: set<Error>)
    ensures errs == {} <==> Compatible(preview, actual)
  {
    if preview.List? && actual.List? then {Error(path, Panics)}
    else if Compatible(preview, actual) then {}
    else
      var errs := {Error(path, UnexpectedValue)};
      assert Error(path, UnexpectedValue) in errs;
      errs
  }

  /** A run that would report these errors panics instead. */
  predicate Panicking(errs: set<Error>) {
    exists e | e in errs :: e.reason == Panics
  }

  // ----- What is not in the preview

  /** The definitions that a new one is flattened into, each with its path. */
  function Flattened(path: Path, d: Definition): (r: set<(Path, Definition)>)
    ensures forall x | x in r :: x.1 == d || Object(x.1) < Object(d)
    decreases Object(d)
  {
    if IsMultiFields(d) || !IsObject(d) then {(path, d)}
    else
      var props := d["properties"].fields;
      set k, x | k in props && props[k].Object? && x in Flattened(Under(path, k), props[k].fields) :: x
  }

  function SchemaErrors(v: Validator, path: Path, d: Definition): set<Error> {
    match FindElementDefinition(path, v.schema)
    case None => {Error(path, NotInSchema)}
    case Some(ecs) =>
      if ecs.external != "ecs" then {Error(path, NotInSchema)} else
      var t := Parameter("type", d);
      (if ecs.typ == t || (IsNumberType(ecs.typ) && IsNumberType(t)) then {} else {Error(path, OtherType)}) +
      (if ecs.metricType == Parameter("time_series_metric", d) then {} else {Error(path, OtherMetric)})
  }

  /** Whether templates are still to be tried. */
  function Rank(t: Templates): nat {
    if t.Parsed? && |t.list| == 0 then 0 else 1
  }

  /** The verdict of a template that matches, with what the others come to. */
  function Try(errs: set<Error>, others: Verdict): Verdict {
    if errs == {} then Accepted else if Panicking(errs) then Panicked else others
  }

  /** Whether a template matches the path and itself accepts the definition. */
  function MatchTemplates(v: Validator, path: Path, d: Definition, ts: seq<Template>): Verdict
    decreases (if |ts| == 0 then 0 else 1), Object(d), 2, |ts|
  {
    if |ts| == 0 then Rejected else
    match ts[0].matcher(path)
    case MatchError => Rejected
    case NoMatch => MatchTemplates(v, path, d, ts[1..])
    case Matches =>
      Try(CompareObjects(v, path, ts[0].mapping, Object(d), NO_TEMPLATES), MatchTemplates(v, path, d, ts[1..]))
  }

  /** What is wrong with one flattened definition. */
  function NewDefinitionErrors(v: Validator, path: Path, d: Definition, ts: seq<Template>): set<Error>
    decreases (if |ts| == 0 then 0 else 1), Object(d), 3
  {
    if path in v.exceptions || IsEmptyObject(d) then {} else
    match MatchTemplates(v, path, d, ts)
    case Accepted => {}
    case Panicked => {Error(path, Panics)}
    case Rejected => SchemaErrors(v, path, d)
  }

  function NotInPreviewErrors(v: Validator, path: Path, d: Definition, t: Templates): set<Error>
    decreases Rank(t), Object(d), 4
  {
    match t
    case Malformed => {Error(path, BadTemplates)}
    case Parsed(ts) => set x, e | x in Flattened(path, d) && e in NewDefinitionErrors(v, x.0, x.1, ts) :: e
  }

  // ----- What is in the preview

  /** compareMappings, as the set of errors it reports. */
  function CompareErrors(v: Validator, path: Path, parameters: bool, preview: Definition, actual: Definition,
                         t: Templates): set<Error>
    decreases Rank(t), Object(actual), 7
  {
    if IsConstantKeyword(actual) then ConstantKeywordErrors(path, preview, actual)
    else if path in v.exceptions || IsObjectFullyDynamic(actual) then {}
    else if parameters && IsObject(actual) then
      if IsObjectFullyDynamic(preview) then NotInPreviewErrors(v, path, actual, t)
      else if !IsObject(preview) then
        if AllowsDynamicChildren(preview, actual) then NotInPreviewErrors(v, path, actual, t)
        else {Error(path, UndefinedMappings)}
      else
        CompareErrors(v, path, false, preview["properties"].fields, actual["properties"].fields, t)
    else if IsMultiFields(actual) then
      if !IsMultiFields(preview) then {Error(path, UndefinedMultiFields)}
      else
        CompareErrors(v, path, false, preview["fields"].fields, actual["fields"].fields, t)
        + PropertiesErrors(v, path, true, preview, actual, t)
    else PropertiesErrors(v, path, false, preview, actual, t)
  }

  function PropertiesErrors(v: Validator, path: Path, multi: bool, preview: Definition, actual: Definition,
                            t: Templates): set<Error>
    decreases Rank(t), Object(actual), 6
  {
    set k, e | k in actual && e in PropertyErrors(v, path, multi, preview, actual, k, t) :: e
  }

  function PropertyErrors(v: Validator, path: Path, multi: bool, preview: Definition, actual: Definition, k: string,
                          t: Templates): set<Error>
    requires k in actual
    decreases Rank(t), Object(actual), 5
  {
    var here := Under(path, k);
    if (multi && k == "fields") || SkipValidation(v, here) then {}
    else if k !in preview then
      match actual[k]
      case Object(d) => if IsEmptyObject(d) then {} else NotInPreviewErrors(v, here, d, t)
      case _ => {Error(here, UndefinedField)}
    else
      match actual[k]
      case Object(_) => CompareObjects(v, here, preview[k], actual[k], t)
      case Null => {}
      case _ => ParameterErrors(here, preview[k], actual[k])
  }

  function CompareObjects(v: Validator, path: Path, preview: Value, actual: Value, t: Templates): set<Error>
    decreases Rank(t), actual, 8
  {
    if !preview.Object? then {Error(path, PreviewNotObject)}
    else if !actual.Object? then {Error(path, ActualNotObject)}
    else CompareErrors(v, path, true, preview.fields, actual.fields, t)
  }

  // ----- Comparing what is reported

  /** Nothing but these errors is reported, unless they say that the program panics. */
  predicate NoNewErrors(errs': set<Error>, errs: set<Error>) {
    Panicking(errs) || errs' <= errs
  }

  /** Verdicts no worse: what was accepted still is, and what was rejected does not make a run panic. */
  predicate NoWorse(verdict': Verdict, verdict: Verdict) {
    (verdict == Accepted ==> verdict' == Accepted) && (verdict == Rejected ==> verdict' != Panicked)
  }

  lemma PartPanics(part: set<Error>, errs: set<Error>)
    requires part <= errs
    ensures Panicking(part) ==> Panicking(errs)
  {
  }

  lemma TryNoWorse(errs': set<Error>, errs: set<Error>, others': Verdict, others: Verdict)
    requires NoNewErrors(errs', errs) && NoWorse(others', others)
    ensures NoWorse(Try(errs', others'), Try(errs, others))
  {
  }

  // ----- A mapping compared with itself

  /** Some list is compared: it is not beside `properties`, nor exempt with something on the way to it. */
  predicate ComparesList(v: Validator, path: Path, parameters: bool, d: Definition)
    decreases Object(d), 3
  {
    if IsConstantKeyword(d) || path in v.exceptions || IsObjectFullyDynamic(d) then false
    else if parameters && IsObject(d) then ComparesList(v, path, false, d["properties"].fields)
    else if IsMultiFields(d) then
      ComparesList(v, path, false, d["fields"].fields) || PropertiesCompareList(v, path, true, d)
    else PropertiesCompareList(v, path, false, d)
  }

  predicate PropertiesCompareList(v: Validator, path: Path, multi: bool, d: Definition)
    decreases Object(d), 2
  {
    exists k | k in d :: PropertyComparesList(v, path, multi, d, k)
  }

  predicate PropertyComparesList(v: Validator, path: Path, multi: bool, d: Definition, k: string)
    requires k in d
    decreases Object(d), 1
  {
    var here := Under(path, k);
    && !(multi && k == "fields") && !SkipValidation(v, here)
    && (d[k].List? || (d[k].Object? && ComparesList(v, here, true, d[k].fields)))
  }

  /** A mapping is accepted as its own preview unless that compares a list, on which the program panics. */
  lemma {:induction false} CompareWithItself(v: Validator, path: Path, parameters: bool, d: Definition, t: Templates)
    ensures CompareErrors(v, path, parameters, d, d, t) == {} <==> !ComparesList(v, path, parameters, d)
    ensures ComparesList(v, path, parameters, d) ==> Panicking(CompareErrors(v, path, parameters, d, d, t))
    decreases Object(d), 3
  {
    if !IsConstantKeyword(d) && path !in v.exceptions && !IsObjectFullyDynamic(d) {
      if parameters && IsObject(d) {
        CompareWithItself(v, path, false, d["properties"].fields, t);
      } else {
        if IsMultiFields(d) {
          CompareWithItself(v, path, false, d["fields"].fields, t);
          EitherPanics(CompareErrors(v, path, false, d["fields"].fields, d["fields"].fields, t),
                       PropertiesErrors(v, path, true, d, d, t));
        }
        PropertiesWithItself(v, path, IsMultiFields(d), d, t);
      }
    }
  }

  lemma {:induction false} PropertiesWithItself(v: Validator, path: Path, multi: bool, d: Definition, t: Templates)
    ensures PropertiesErrors(v, path, multi, d, d, t) == {} <==> !PropertiesCompareList(v, path, multi, d)
    ensures PropertiesCompareList(v, path, multi, d) ==> Panicking(PropertiesErrors(v, path, multi, d, d, t))
    decreases Object(d), 2
  {
    forall k | k in d
      ensures PropertyErrors(v, path, multi, d, d, k, t) == {} <==> !PropertyComparesList(v, path, multi, d, k)
      ensures PropertyComparesList(v, path, multi, d, k) ==> Panicking(PropertyErrors(v, path, multi, d, d, k, t))
      ensures PropertyErrors(v, path, multi, d, d, k, t) <= PropertiesErrors(v, path, multi, d, d, t)
    {
      if d[k].Object? {
        CompareWithItself(v, Under(path, k), true, d[k].fields, t);
      } else if d[k].List? {
        assert Error(Under(path, k), Panics) in ParameterErrors(Under(path, k), d[k], d[k]);
      }
    }
  }

  lemma EitherPanics(a: set<Error>, b: set<Error>)
    ensures Panicking(a + b) <==> Panicking(a) || Panicking(b)
    ensures a + b == {} <==> a == {} && b == {}
  {
    if Panicking(a) {
      var e :| e in a && e.reason == Panics;
      assert e in a + b;
    }
    if Panicking(b) {
      var e :| e in b && e.reason == Panics;
      assert e in a + b;
    }
  }
}
