/** Replacing references to external fields by the definitions they refer to. */
module FieldInjection {
  import opened DottedKeys
  import opened Json
  import opened Options
  import opened MapStr
  import opened DeepUpdate

  /** A definition found in a schema. */
  datatype Imported = Imported(
    name: string, typ: string, objectType: string, description: string, pattern: string,
    index: Option<bool>, docValues: Option<bool>, normalize: seq<string>, allowedValues: seq<Json>,
    expectedValues: seq<string>, multiFields: seq<Imported>, disallowAtTopLevel: bool)

  /** `schema` finds the definition for a path; `textOf` gives the text of a JSON value in one of its spellings. */
  datatype InjectOptions = InjectOptions(
    keepExternal: bool, skipEmptyFields: bool, disallowAtTopLevel: bool, includeValidation: bool,
    schema: (string, string) -> Option<Imported>, textOf: (Json, nat) -> string)

  /** An entry of a definition, Null when it is missing. */
  function Field(def: Fields, k: string): Json {
    if k in def then def[k] else Null
  }

  function StringOf(v: Json, o: InjectOptions): Option<string> {
    match v
    case String(s) => Some(s)
    case Text(w, n) => Some(o.textOf(w, n))
    case _ => None
  }

  /** No entry is an object, so whatever is merged in takes its place. */
  predicate Flat(m: Fields) {
    forall k | k in m :: !m[k].Object?
  }

  function With(m: Fields, present: bool, k: string, v: Json): (r: Fields)
    ensures Flat(m) && !v.Object? ==> Flat(r)
  {
    if present then m[k := v] else m
  }

  function Strings(ss: seq<string>): seq<Json> {
    seq(|ss|, i requires 0 <= i < |ss| => String(ss[i]))
  }

  /** transformImportedField */
  function Transform(fd: Imported, validation: bool): (m: Fields)
    ensures Field(m, "type") == String(fd.typ) && Flat(m)
    ensures "external" !in m && "fields" !in m
    decreases fd
  {
    var subs := seq(|fd.multiFields|, i requires 0 <= i < |fd.multiFields| =>
      Object(Transform(fd.multiFields[i], validation)));
    var m := With(Described(fd), fd.multiFields != [], "multi_fields", List(subs));
    if validation then Validated(m, fd) else m
  }

  function Described(fd: Imported): (m: Fields)
    ensures Field(m, "type") == String(fd.typ) && Flat(m)
    ensures "external" !in m && "fields" !in m
  {
    var m := map["name" := String(fd.name), "type" := String(fd.typ)];
    var m := With(m, fd.objectType != "", "object_type", String(fd.objectType));
    var m := With(m, fd.description != "", "description", String(fd.description));
    var m := With(m, fd.pattern != "", "pattern", String(fd.pattern));
    var m := With(m, fd.index.Some?, "index", Bool(fd.index == Some(true)));
    With(m, fd.docValues.Some?, "doc_values", Bool(fd.docValues == Some(true)))
  }

  function Validated(m: Fields, fd: Imported): (r: Fields)
    ensures Field(r, "type") == Field(m, "type")
    ensures Flat(m) ==> Flat(r)
    ensures "external" in r <==> "external" in m
    ensures "fields" in r <==> "fields" in m
  {
    var m := With(m, fd.normalize != [], "normalize", List(Strings(fd.normalize)));
    var m := With(m, fd.allowedValues != [], "allowed_values", List(fd.allowedValues));
    With(m, fd.expectedValues != [], "expected_values", List(Strings(fd.expectedValues)))
  }

  predicate AllowedTypeOverride(from: string, to: string) {
    || (from == "keyword" && to == "constant_keyword")
    || (from == "constant_keyword" && to == "keyword")
    || (from == "object" && (to == "group" || to == "nested"))
  }

  /** An imported definition with what the package overrides, except for the type. */
  function Import(fd: Imported, def: Fields, o: InjectOptions): Fields {
    var m := Update(Transform(fd, o.includeValidation), def, true);
    var m := if o.keepExternal then m else m - {"external"};
    var typ := StringOf(Field(m, "type"), o);
    if typ.Some? && AllowedTypeOverride(fd.typ, typ.value) then m else m["type" := String(fd.typ)]
  }

  /** skipField */
  predicate Skipped(def: Fields, o: InjectOptions) {
    && StringOf(Field(def, "type"), o) == Some("group")
    && Field(def, "external").Null?
    && (Field(def, "fields").Null? || Field(def, "fields") == List([]))
  }

  /** One field: none or one takes its place. None stands for an error, or a panic over a value that is no string. */
  function InjectOne(d: Json, root: string, o: InjectOptions): Option<(seq<Json>, bool)>
    decreases d, 1
  {
    if !d.Object? then None else
    var def := d.fields;
    var name :- StringOf(Field(def, "name"), o);
    var path := Under(root, name);
    if !Field(def, "external").Null? then
      var schemaName :- StringOf(Field(def, "external"), o);
      var fd :- o.schema(schemaName, path);
      if fd.disallowAtTopLevel && o.disallowAtTopLevel then None
      else Some(Keep(Import(fd, def, o), true, o))
    else
      match Field(def, "fields")
      case Null => Some(Keep(def, false, o))
      case List(items) =>
        var r :- Inject(items, path, o);
        Some(Keep(def["fields" := List(r.0)], r.1, o))
      case _ => None
  }

  function Keep(def: Fields, changed: bool, o: InjectOptions): (seq<Json>, bool) {
    if o.skipEmptyFields && Skipped(def, o) then ([], true) else ([Object(def)], changed)
  }

  function Inject(ds: seq<Json>, root: string, o: InjectOptions): Option<(seq<Json>, bool)>
    decreases ds, 0
  {
    if ds == [] then Some(([], false)) else
    var first :- InjectOne(ds[0], root, o);
    var rest :- Inject(ds[1..], root, o);
    Some((first.0 + rest.0, first.1 || rest.1))
  }

  /** injectFieldsWithOptions */
  method InjectFieldsWithOptions(defs: seq<Json>, root: string, o: InjectOptions)
    returns (r: Option<(seq<Json>, bool)>)
    ensures r == Inject(defs, root, o)
    decreases defs, 2
  {
    var updated, changed := [], false;
    assert defs[0..] == defs;
    OnwardFromStart(Inject(defs, root, o));
    for i := 0 to |defs|
      invariant Inject(defs, root, o) == Onward(updated, changed, Inject(defs[i..], root, o))
    {
      InjectNext(updated, changed, defs, i, root, o);
      if !defs[i].Object? {
        return None;
      }
      var def := defs[i].fields;
      var name := StringOf(Field(def, "name"), o);
      if name.None? {
        return None;
      }
      var path, done := Under(root, name.value), false;
      if !Field(def, "external").Null? {
        var schemaName := StringOf(Field(def, "external"), o);
        if schemaName.None? {
          return None;
        }
        var imported := o.schema(schemaName.value, path);
        if imported.None? || (imported.value.disallowAtTopLevel && o.disallowAtTopLevel) {
          return None;
        }
        def := Import(imported.value, def, o);
        done := true;
      } else if !Field(def, "fields").Null? {
        if !def["fields"].List? {
          return None;
        }
        var fields := InjectFieldsWithOptions(def["fields"].items, path, o);
        if fields.None? {
          return None;
        }
        done := fields.value.1;
        def := def["fields" := List(fields.value.0)];
      }
      changed := changed || done;
      if o.skipEmptyFields && Skipped(def, o) {
        changed := true;
        assert updated + [] == updated;
        continue;
      }
      updated := updated + [Object(def)];
    }
    assert defs[|defs|..] == [];
    assert updated + [] == updated;
    return Some((updated, changed));
  }

  /** The outcome, from what is done and the outcome for what is left. */
  function Onward(updated: seq<Json>, changed: bool, rest: Option<(seq<Json>, bool)>): Option<(seq<Json>, bool)> {
    if rest.None? then None else Some((updated + rest.value.0, changed || rest.value.1))
  }

  lemma OnwardFromStart(rest: Option<(seq<Json>, bool)>)
    ensures Onward([], false, rest) == rest
  {
    assert rest.Some? ==> [] + rest.value.0 == rest.value.0;
  }

  lemma {:induction false} InjectNext(updated: seq<Json>, changed: bool, ds: seq<Json>, i: nat, root: string,
                                      o: InjectOptions)
    requires i < |ds|
    ensures var first, rest := InjectOne(ds[i], root, o), Inject(ds[i + 1..], root, o);
            Onward(updated, changed, Inject(ds[i..], root, o))
              == if first.None? then None else Onward(updated + first.value.0, changed || first.value.1, rest)
  {
    assert ds[i..][0] == ds[i] && ds[i..][1..] == ds[i + 1..];
    var first, rest := InjectOne(ds[i], root, o), Inject(ds[i + 1..], root, o);
    if first.Some? && rest.Some? {
      assert updated + (first.value.0 + rest.value.0) == (updated + first.value.0) + rest.value.0;
    }
  }
}
