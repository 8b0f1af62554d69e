/** What injecting external fields does to names, types and groups, and when doing it again changes nothing. */
module InjectionTheorems {
  import opened DottedKeys
  import opened Json
  import opened Options
  import opened MapStr
  import opened DeepUpdate
  import opened Sequences
  import opened FieldInjection

  // ----- When injecting fails

  /** A definition without a name that is a string, with a reference that leads nowhere or to what is not allowed, or
      with such a definition among its fields or fields that are no list; the fields of a reference do not count. */
  predicate Faulty(d: Json, root: string, o: InjectOptions)
    decreases d
  {
    if !d.Object? || StringOf(Field(d.fields, "name"), o).None? then true else
    var path := Under(root, StringOf(Field(d.fields, "name"), o).value);
    if !Field(d.fields, "external").Null? then
      var schema := StringOf(Field(d.fields, "external"), o);
      || schema.None? || o.schema(schema.value, path).None?
      || (o.schema(schema.value, path).value.disallowAtTopLevel && o.disallowAtTopLevel)
    else
      var fields := Field(d.fields, "fields");
      !fields.Null? && (!fields.List? || exists c | c in fields.items :: Faulty(c, path, o))
  }

  lemma {:induction false} OneFails(d: Json, root: string, o: InjectOptions)
    ensures InjectOne(d, root, o).None? <==> Faulty(d, root, o)
    decreases d, 0
  {
    if d.Object? && StringOf(Field(d.fields, "name"), o).Some? && Field(d.fields, "external").Null? {
      if Field(d.fields, "fields").List? {
        InjectFails(Below(d), Under(root, StringOf(Field(d.fields, "name"), o).value), o);
      }
    }
  }

  /** Injecting fails exactly if one of the definitions is at fault. */
  lemma {:induction false} InjectFails(ds: seq<Json>, root: string, o: InjectOptions)
    ensures Inject(ds, root, o).None? <==> exists d | d in ds :: Faulty(d, root, o)
    decreases ds, 1
  {
    if ds != [] {
      OneFails(ds[0], root, o);
      InjectFails(ds[1..], root, o);
      InjectUnfolds(ds, root, o);
      MembersOf(ds);
    }
  }

  // ----- Injecting again

  /** A definition that injecting leaves as it is. */
  predicate Settled(d: Json, o: InjectOptions)
    decreases d, 1
  {
    && d.Object? && StringOf(Field(d.fields, "name"), o).Some? && Field(d.fields, "external").Null?
    && !(o.skipEmptyFields && Skipped(d.fields, o))
    && SettledBelow(d, o)
  }

  predicate SettledBelow(d: Json, o: InjectOptions)
    requires d.Object?
    decreases d, 0
  {
    var fields := Field(d.fields, "fields");
    fields.Null? || (fields.List? && forall c | c in fields.items :: Settled(c, o))
  }

  /** The definitions that a definition declares as its fields. */
  function Below(d: Json): (items: seq<Json>)
    ensures forall c | c in items :: c < d
  {
    if d.Object? && Field(d.fields, "fields").List? then Field(d.fields, "fields").items else []
  }

  /** Wherever an external field declares fields of its own, those are settled. */
  predicate Closed(d: Json, o: InjectOptions)
    requires d.Object?
    decreases d
  {
    if !Field(d.fields, "external").Null? then SettledBelow(d, o)
    else forall c | c in Below(d) :: c.Object? && Closed(c, o)
  }

  lemma {:induction false} SettledOne(d: Json, root: string, o: InjectOptions)
    ensures InjectOne(d, root, o) == Some(([d], false)) <==> Settled(d, o)
    decreases d, 0
  {
    if d.Object? && StringOf(Field(d.fields, "name"), o).Some? && Field(d.fields, "external").Null? {
      var fields := Field(d.fields, "fields");
      if fields.List? {
        var path := Under(root, StringOf(Field(d.fields, "name"), o).value);
        SettledStay(fields.items, path, o);
        assert d.fields["fields" := fields] == d.fields;
      }
    }
  }

  lemma {:induction false} InjectUnfolds(ds: seq<Json>, root: string, o: InjectOptions)
    requires ds != []
    ensures Inject(ds, root, o).Some? <==> InjectOne(ds[0], root, o).Some? && Inject(ds[1..], root, o).Some?
    ensures Inject(ds, root, o).Some? ==>
              var first, rest := InjectOne(ds[0], root, o).value, Inject(ds[1..], root, o).value;
              Inject(ds, root, o).value == (first.0 + rest.0, first.1 || rest.1)
  {
  }

  /** Injecting changes nothing, and says so, exactly for settled definitions. */
  lemma {:induction false} SettledStay(ds: seq<Json>, root: string, o: InjectOptions)
    ensures Inject(ds, root, o) == Some((ds, false)) <==> forall d | d in ds :: Settled(d, o)
    decreases ds, 1
  {
    if ds != [] {
      SettledOne(ds[0], root, o);
      SettledStay(ds[1..], root, o);
      InjectUnfolds(ds, root, o);
      MembersOf(ds);
      var first, rest := InjectOne(ds[0], root, o), Inject(ds[1..], root, o);
      if first.Some? && rest.Some? && !first.value.1 {
        SameHead(ds, first.value.0[0], rest.value.0);
      }
    }
  }

  // ----- What an imported definition is

  /** The entry is there exactly if `present`, with the value. */
  predicate Entry(m: Fields, k: string, present: bool, v: Json) {
    if present then k in m && m[k] == v else k !in m
  }

  const FIELD_KEYS := {"name", "type", "object_type", "description", "pattern", "index", "doc_values"}

  predicate DescribesField(m: Fields, fd: Imported) {
    && Entry(m, "name", true, String(fd.name))
    && Entry(m, "type", true, String(fd.typ))
    && Entry(m, "object_type", fd.objectType != "", String(fd.objectType))
    && Entry(m, "description", fd.description != "", String(fd.description))
    && Entry(m, "pattern", fd.pattern != "", String(fd.pattern))
    && (if fd.index.Some? then Entry(m, "index", true, Bool(fd.index.value)) else "index" !in m)
    && (if fd.docValues.Some? then Entry(m, "doc_values", true, Bool(fd.docValues.value)) else "doc_values" !in m)
  }

  /** The values that documents may have, only when these are wanted. */
  predicate DescribesValues(m: Fields, fd: Imported, validation: bool) {
    && Entry(m, "normalize", validation && fd.normalize != [], List(Strings(fd.normalize)))
    && Entry(m, "allowed_values", validation && fd.allowedValues != [], List(fd.allowedValues))
    && Entry(m, "expected_values", validation && fd.expectedValues != [], List(Strings(fd.expectedValues)))
  }

  /** The entries say what the definition is, with its multi-fields, and nothing else. */
  predicate Describes(m: Fields, fd: Imported, validation: bool)
    decreases fd
  {
    && m.Keys <= FIELD_KEYS + {"multi_fields"} + {"normalize", "allowed_values", "expected_values"}
    && DescribesField(m, fd) && DescribesValues(m, fd, validation)
    && if fd.multiFields == [] then "multi_fields" !in m
       else
         && "multi_fields" in m && m["multi_fields"].List? && |m["multi_fields"].items| == |fd.multiFields|
         && forall i | 0 <= i < |fd.multiFields| ::
              && m["multi_fields"].items[i].Object?
              && Describes(m["multi_fields"].items[i].fields, fd.multiFields[i], validation)
  }

  lemma DescribedField(fd: Imported)
    ensures DescribesField(Described(fd), fd)
    ensures Described(fd).Keys <= FIELD_KEYS
  {
  }

  /** Other keys leave what is said of the field the same. */
  lemma OtherKeys(m: Fields, m': Fields, fd: Imported)
    requires DescribesField(m, fd)
    requires forall k | k in FIELD_KEYS :: (k in m' <==> k in m) && (k in m ==> m'[k] == m[k])
    ensures DescribesField(m', fd)
  {
  }

  lemma WithSubFields(fd: Imported, subs: seq<Json>)
    ensures var m := With(Described(fd), fd.multiFields != [], "multi_fields", List(subs));
            && DescribesField(m, fd) && Entry(m, "multi_fields", fd.multiFields != [], List(subs))
            && m.Keys <= FIELD_KEYS + {"multi_fields"}
  {
    DescribedField(fd);
    var m := With(Described(fd), fd.multiFields != [], "multi_fields", List(subs));
    assert "multi_fields" !in FIELD_KEYS;
    OtherKeys(Described(fd), m, fd);
  }

  lemma ValidatedKeys(m: Fields, fd: Imported, k: string)
    requires k !in {"normalize", "allowed_values", "expected_values"}
    ensures k in Validated(m, fd) <==> k in m
    ensures k in m ==> Validated(m, fd)[k] == m[k]
  {
  }

  lemma ValidatedValues(m: Fields, fd: Imported)
    requires m.Keys !! {"normalize", "allowed_values", "expected_values"}
    ensures DescribesValues(Validated(m, fd), fd, true) && DescribesValues(m, fd, false)
    ensures Validated(m, fd).Keys <= m.Keys + {"normalize", "allowed_values", "expected_values"}
  {
    assert "normalize" !in m && "allowed_values" !in m && "expected_values" !in m;
  }

  lemma FieldKeysAreOthers()
    ensures FIELD_KEYS + {"multi_fields"} !! {"normalize", "allowed_values", "expected_values"}
  {
  }

  /** All the entries but the definitions of the multi-fields. */
  lemma TransformKeys(fd: Imported, validation: bool, m: Fields, subs: seq<Json>)
    requires m == With(Described(fd), fd.multiFields != [], "multi_fields", List(subs))
    ensures var r := if validation then Validated(m, fd) else m;
            && DescribesField(r, fd) && DescribesValues(r, fd, validation)
            && Entry(r, "multi_fields", fd.multiFields != [], List(subs))
            && r.Keys <= FIELD_KEYS + {"multi_fields"} + {"normalize", "allowed_values", "expected_values"}
  {
    WithSubFields(fd, subs);
    FieldKeysAreOthers();
    ValidatedValues(m, fd);
    forall k | k in FIELD_KEYS + {"multi_fields"}
      ensures k in Validated(m, fd) <==> k in m
      ensures k in m ==> Validated(m, fd)[k] == m[k]
    {
      ValidatedKeys(m, fd, k);
    }
    assert "multi_fields" in FIELD_KEYS + {"multi_fields"};
    OtherKeys(m, Validated(m, fd), fd);
  }

  /** What is imported describes the definition. */
  lemma {:induction false} TransformDescribes(fd: Imported, validation: bool)
    ensures Describes(Transform(fd, validation), fd, validation)
    decreases fd
  {
    var subs := seq(|fd.multiFields|, i requires 0 <= i < |fd.multiFields| =>
      Object(Transform(fd.multiFields[i], validation)));
    forall i | 0 <= i < |fd.multiFields|
      ensures Describes(Transform(fd.multiFields[i], validation), fd.multiFields[i], validation)
    {
      TransformDescribes(fd.multiFields[i], validation);
    }
    TransformKeys(fd, validation, With(Described(fd), fd.multiFields != [], "multi_fields", List(subs)), subs);
  }

  /** The type that an imported field ends with: the package's own if it is an allowed override. */
  function FinalType(fd: Imported, def: Fields, o: InjectOptions): Json {
    var own := StringOf(Field(def, "type"), o);
    if || (fd.typ == "keyword" && own == Some("constant_keyword"))
       || (fd.typ == "constant_keyword" && own == Some("keyword"))
       || (fd.typ == "object" && own == Some("group"))
       || (fd.typ == "object" && own == Some("nested"))
    then Field(def, "type") else String(fd.typ)
  }

  /** The package's own entries stay, except for the type, and all others are those of the imported definition. */
  ghost predicate ImportedOver(m: Fields, fd: Imported, def: Fields, o: InjectOptions) {
    && (forall k | k in def && k != "type" && k != "external" :: Field(m, k) == def[k])
    && (exists t :: Describes(t, fd, o.includeValidation)
                    && forall k | k !in def && k != "type" :: Field(m, k) == Field(t, k))
    && Field(m, "fields") == Field(def, "fields")
    && Field(m, "type") == FinalType(fd, def, o)
    && Field(m, "external") == (if o.keepExternal then Field(def, "external") else Null)
  }

  lemma ImportKeeps(fd: Imported, def: Fields, o: InjectOptions)
    ensures ImportedOver(Import(fd, def, o), fd, def, o)
  {
    ImportedEntries(fd, def, o);
    ImportedFinalType(fd, def, o);
    TransformDescribes(fd, o.includeValidation);
  }

  lemma {:induction false} ImportedEntries(fd: Imported, def: Fields, o: InjectOptions)
    ensures var t, m := Transform(fd, o.includeValidation), Import(fd, def, o);
            && (forall k | k in def && k != "type" && k != "external" :: Field(m, k) == def[k])
            && (forall k | k !in def && k != "type" :: Field(m, k) == Field(t, k))
            && Field(m, "fields") == Field(def, "fields")
            && Field(m, "external") == (if o.keepExternal then Field(def, "external") else Null)
  {
    var t, m := Transform(fd, o.includeValidation), Import(fd, def, o);
    MergedOver(t, def);
    forall k | k in def && k != "type" && k != "external" ensures Field(m, k) == def[k] {
      ImportedEntry(fd, def, o, k);
    }
    forall k | k !in def && k != "type" ensures Field(m, k) == Field(t, k) {
      if k != "external" {
        ImportedEntry(fd, def, o, k);
      }
    }
    ImportedEntry(fd, def, o, "fields");
    assert Field(t, "fields") == Field(t, "external") == Null;
  }

  lemma ImportedFinalType(fd: Imported, def: Fields, o: InjectOptions)
    ensures Field(Import(fd, def, o), "type") == FinalType(fd, def, o)
  {
    MergedOver(Transform(fd, o.includeValidation), def);
  }

  lemma ImportedType(fd: Imported, def: Fields, o: InjectOptions)
    ensures "type" in Import(fd, def, o)
    ensures var typ := StringOf(Import(fd, def, o)["type"], o);
            !(typ.Some? && AllowedTypeOverride(fd.typ, typ.value)) ==> Import(fd, def, o)["type"] == String(fd.typ)
  {
  }

  lemma {:induction false} ImportedEntry(fd: Imported, def: Fields, o: InjectOptions, k: string)
    requires k != "type" && k != "external"
    ensures Field(Import(fd, def, o), k) == Field(Update(Transform(fd, o.includeValidation), def, true), k)
  {
  }

  lemma {:induction false} MergedOver(t: Fields, def: Fields)
    requires Flat(t)
    ensures forall k :: Field(Update(t, def, true), k) == if k !in def then Field(t, k) else def[k]
  {
    assert forall k | k in def :: Update(t, def, true)[k] == UpdateEntry(t, def, k, true);
  }

  lemma {:induction false} KeptIsSettled(def: Fields, changed: bool, o: InjectOptions)
    requires StringOf(Field(def, "name"), o).Some? && Field(def, "external").Null?
    ensures (forall x | x in Keep(def, changed, o).0 :: Settled(x, o)) <==> SettledBelow(Object(def), o)
  {
    if !(o.skipEmptyFields && Skipped(def, o)) {
      assert Keep(def, changed, o).0 == [Object(def)] && Object(def) in Keep(def, changed, o).0;
    }
  }

  lemma {:induction false} OneIsSettled(d: Json, root: string, o: InjectOptions)
    requires !o.keepExternal && InjectOne(d, root, o).Some?
    ensures d.Object?
    ensures (forall x | x in InjectOne(d, root, o).value.0 :: Settled(x, o)) <==> Closed(d, o)
    decreases d, 0
  {
    var def := d.fields;
    var path := Under(root, StringOf(Field(def, "name"), o).value);
    if !Field(def, "external").Null? {
      var fd := o.schema(StringOf(Field(def, "external"), o).value, path).value;
      ImportKeeps(fd, def, o);
      var m := Import(fd, def, o);
      assert Field(m, "name") == Field(def, "name");
      KeptIsSettled(m, true, o);
    } else if Field(def, "fields").List? {
      AllAreSettled(Below(d), path, o);
      var r := Inject(Below(d), path, o).value;
      KeptIsSettled(def["fields" := List(r.0)], r.1, o);
    } else {
      KeptIsSettled(def, false, o);
    }
  }

  /** A second injection changes nothing exactly when the fields that external fields declare are settled. */
  lemma {:induction false} AllAreSettled(ds: seq<Json>, root: string, o: InjectOptions)
    requires !o.keepExternal && Inject(ds, root, o).Some?
    ensures forall d | d in ds :: d.Object?
    ensures (forall x | x in Inject(ds, root, o).value.0 :: Settled(x, o)) <==> forall d | d in ds :: Closed(d, o)
    decreases ds, 1
  {
    if ds != [] {
      OneIsSettled(ds[0], root, o);
      AllAreSettled(ds[1..], root, o);
      MembersOf(ds);
    }
  }

  lemma {:induction false} InjectingTwice(ds: seq<Json>, root: string, o: InjectOptions)
    requires !o.keepExternal && Inject(ds, root, o).Some?
    ensures forall d | d in ds :: d.Object?
    ensures var r := Inject(ds, root, o).value.0;
            Inject(r, root, o) == Some((r, false)) <==> forall d | d in ds :: Closed(d, o)
  {
    AllAreSettled(ds, root, o);
    SettledStay(Inject(ds, root, o).value.0, root, o);
  }

  /** An external field with a field of its own that is external, too. */
  function ExternalInExternal(a: string, b: string, schema: string): Json {
    var inner := Object(map["name" := String(b), "external" := String(schema)]);
    Object(map["name" := String(a), "external" := String(schema), "fields" := List([inner])])
  }

  /** The inner reference is left for a second injection. */
  lemma {:induction false} OwnFieldsAreNotInjected(root: string, o: InjectOptions, a: string, b: string, schema: string)
    requires !o.keepExternal && o.schema(schema, Under(root, a)).Some?
    requires !(o.schema(schema, Under(root, a)).value.disallowAtTopLevel && o.disallowAtTopLevel)
    ensures var r := Inject([ExternalInExternal(a, b, schema)], root, o);
            r.Some? && Inject(r.value.0, root, o) != Some((r.value.0, false))
  {
    var d := ExternalInExternal(a, b, schema);
    assert d.fields["name"] == String(a) && d.fields["external"] == String(schema);
    OneExternal(d, root, o, a, schema);
    var inner := d.fields["fields"].items[0];
    assert inner.fields["external"] == String(schema);
    assert !SettledBelow(d, o) by {
      assert inner in d.fields["fields"].items && !Settled(inner, o);
    }
    InjectingTwice([d], root, o);
    assert d in [d] && !Closed(d, o);
  }

  lemma {:induction false} OneExternal(d: Json, root: string, o: InjectOptions, name: string, schema: string)
    requires d.Object? && Field(d.fields, "name") == String(name) && Field(d.fields, "external") == String(schema)
    requires o.schema(schema, Under(root, name)).Some?
    requires !(o.schema(schema, Under(root, name)).value.disallowAtTopLevel && o.disallowAtTopLevel)
    ensures Inject([d], root, o).Some?
  {
    assert InjectOne(d, root, o).Some?;
    assert [d][1..] == [] && [d][0] == d;
  }

  // ----- Injecting again when references are kept

  /** What is merged over flat entries takes the place of all it names. */
  lemma {:induction false} MergedOverFlat(t: Fields, m: Fields)
    requires Flat(t) && t.Keys <= m.Keys
    ensures Update(t, m, true) == m
  {
    assert Update(t, m, true).Keys == t.Keys + m.Keys == m.Keys;
    assert forall k | k in m :: Update(t, m, true)[k] == UpdateEntry(t, m, k, true) == m[k];
  }

  lemma {:induction false} ImportHasAll(fd: Imported, def: Fields, o: InjectOptions)
    requires o.keepExternal
    ensures Transform(fd, o.includeValidation).Keys <= Import(fd, def, o).Keys
  {
    var t := Transform(fd, o.includeValidation);
    assert t.Keys <= Update(t, def, true).Keys;
  }

  /** Importing over what has been imported changes nothing. */
  lemma ImportTwice(fd: Imported, def: Fields, o: InjectOptions)
    requires o.keepExternal
    ensures Import(fd, Import(fd, def, o), o) == Import(fd, def, o)
  {
    var t, m := Transform(fd, o.includeValidation), Import(fd, def, o);
    ImportHasAll(fd, def, o);
    MergedOverFlat(t, m);
    ImportedType(fd, def, o);
    assert m["type" := m["type"]] == m;
  }

  /** Definitions are injected one by one. */
  lemma {:induction false} InjectConcat(a: seq<Json>, b: seq<Json>, root: string, o: InjectOptions)
    requires Inject(a, root, o).Some? && Inject(b, root, o).Some?
    ensures Inject(a + b, root, o).Some?
    ensures Inject(a + b, root, o).value.0 == Inject(a, root, o).value.0 + Inject(b, root, o).value.0
    decreases |a|
  {
    if a == [] {
      assert a + b == b;
      assert [] + Inject(b, root, o).value.0 == Inject(b, root, o).value.0;
    } else {
      HeadAndTail(a, b);
      InjectUnfolds(a, root, o);
      InjectUnfolds(a + b, root, o);
      InjectConcat(a[1..], b, root, o);
      Associates(InjectOne(a[0], root, o).value.0, Inject(a[1..], root, o).value.0, Inject(b, root, o).value.0);
    }
  }

  predicate Stable(ds: seq<Json>, root: string, o: InjectOptions) {
    Inject(ds, root, o).Some? && Inject(ds, root, o).value.0 == ds
  }

  lemma {:induction false} KeptIsStable(def: Fields, changed: bool, root: string, o: InjectOptions)
    requires !(o.skipEmptyFields && Skipped(def, o)) ==>
               InjectOne(Object(def), root, o).Some? && InjectOne(Object(def), root, o).value.0 == [Object(def)]
    ensures Stable(Keep(def, changed, o).0, root, o)
  {
    if !(o.skipEmptyFields && Skipped(def, o)) {
      assert [Object(def)][1..] == [] && [Object(def)] + [] == [Object(def)];
    }
  }

  lemma {:induction false} OneIsStable(d: Json, root: string, o: InjectOptions)
    requires o.keepExternal && InjectOne(d, root, o).Some?
    ensures Stable(InjectOne(d, root, o).value.0, root, o)
    decreases d, 0
  {
    var def := d.fields;
    var path := Under(root, StringOf(Field(def, "name"), o).value);
    if !Field(def, "external").Null? {
      var fd := o.schema(StringOf(Field(def, "external"), o).value, path).value;
      ImportKeeps(fd, def, o);
      ImportTwice(fd, def, o);
      var m := Import(fd, def, o);
      assert Field(m, "name") == Field(def, "name");
      KeptIsStable(m, true, root, o);
    } else if Field(def, "fields").List? {
      InjectingAgain(Below(d), path, o);
      var r := Inject(Below(d), path, o).value;
      var m := def["fields" := List(r.0)];
      assert m["fields" := List(r.0)] == m;
      KeptIsStable(m, r.1, root, o);
    } else {
      KeptIsStable(def, false, root, o);
    }
  }

  /** With references kept, a second injection finds each of them again and changes nothing, whatever the fields. */
  lemma {:induction false} InjectingAgain(ds: seq<Json>, root: string, o: InjectOptions)
    requires o.keepExternal && Inject(ds, root, o).Some?
    ensures Stable(Inject(ds, root, o).value.0, root, o)
    decreases ds, 1
  {
    if ds != [] {
      OneIsStable(ds[0], root, o);
      InjectingAgain(ds[1..], root, o);
      InjectConcat(InjectOne(ds[0], root, o).value.0, Inject(ds[1..], root, o).value.0, root, o);
    }
  }

  // ----- What the result looks like

  /** What injecting gives the definitions that it goes through. */
  datatype Quality = NotExternal | NotSkipped

  predicate Gives(q: Quality, o: InjectOptions) {
    q == NotExternal ==> !o.keepExternal
  }

  predicate Has(d: Json, q: Quality, o: InjectOptions) {
    && d.Object?
    && match q
       case NotExternal => Field(d.fields, "external").Null?
       case NotSkipped => !(o.skipEmptyFields && Skipped(d.fields, o))
  }

  /** The definition and all those below it have the quality. */
  predicate Throughout(d: Json, q: Quality, o: InjectOptions)
    decreases d
  {
    Has(d, q, o) && forall c | c in Below(d) :: Throughout(c, q, o)
  }

  /** The definitions that external fields declare as their own fields have the quality at every depth. */
  predicate OwnHave(d: Json, q: Quality, o: InjectOptions)
    decreases d
  {
    if d.Object? && !Field(d.fields, "external").Null? then forall c | c in Below(d) :: Throughout(c, q, o)
    else forall c | c in Below(d) :: OwnHave(c, q, o)
  }

  lemma {:induction false} KeptThroughout(def: Fields, changed: bool, q: Quality, o: InjectOptions)
    requires Gives(q, o) && (o.keepExternal || Field(def, "external").Null?)
    ensures (forall x | x in Keep(def, changed, o).0 :: Throughout(x, q, o))
       <==> forall c | c in Below(Object(def)) :: Throughout(c, q, o)
  {
    if !(o.skipEmptyFields && Skipped(def, o)) {
      assert Keep(def, changed, o).0 == [Object(def)] && Object(def) in Keep(def, changed, o).0;
    }
  }

  lemma {:induction false} OneThroughout(d: Json, root: string, o: InjectOptions, q: Quality)
    requires Gives(q, o) && InjectOne(d, root, o).Some?
    ensures (forall x | x in InjectOne(d, root, o).value.0 :: Throughout(x, q, o)) <==> OwnHave(d, q, o)
    decreases d, 0
  {
    var def := d.fields;
    var path := Under(root, StringOf(Field(def, "name"), o).value);
    if !Field(def, "external").Null? {
      var fd := o.schema(StringOf(Field(def, "external"), o).value, path).value;
      ImportKeeps(fd, def, o);
      var m := Import(fd, def, o);
      assert Below(Object(m)) == Below(d);
      KeptThroughout(m, true, q, o);
    } else if Field(def, "fields").List? {
      InjectedThroughout(Below(d), path, o, q);
      var r := Inject(Below(d), path, o).value;
      KeptThroughout(def["fields" := List(r.0)], r.1, q, o);
    } else {
      KeptThroughout(def, false, q, o);
    }
  }

  /** The result has no empty group at any depth when those are skipped, and nothing external when that is not kept,
      exactly if this holds of the fields that external fields declare. */
  lemma {:induction false} InjectedThroughout(ds: seq<Json>, root: string, o: InjectOptions, q: Quality)
    requires Gives(q, o) && Inject(ds, root, o).Some?
    ensures (forall x | x in Inject(ds, root, o).value.0 :: Throughout(x, q, o))
       <==> forall d | d in ds :: OwnHave(d, q, o)
    decreases ds, 1
  {
    if ds != [] {
      OneThroughout(ds[0], root, o, q);
      InjectedThroughout(ds[1..], root, o, q);
      MembersOf(ds);
    }
  }

  // ----- What each definition becomes

  predicate IsGroup(typ: Json, o: InjectOptions) {
    StringOf(typ, o) == Some("group")
  }

  /** `out` is what may take the place of `d`: one definition, or none for a group that is left without fields. */
  ghost predicate StandsFor(out: seq<Json>, d: Json, root: string, o: InjectOptions)
    decreases d, 1
  {
    && d.Object? && StringOf(Field(d.fields, "name"), o).Some?
    && var path := Under(root, StringOf(Field(d.fields, "name"), o).value);
    if !Field(d.fields, "external").Null? then
      var schema := StringOf(Field(d.fields, "external"), o);
      && schema.Some? && o.schema(schema.value, path).Some?
      && ImportStands(out, o.schema(schema.value, path).value, d.fields, o)
    else match Field(d.fields, "fields")
      case Null => out == if o.skipEmptyFields && IsGroup(Field(d.fields, "type"), o) then [] else [d]
      case List(items) =>
        if out == [] then o.skipEmptyFields && IsGroup(Field(d.fields, "type"), o) && AllStandFor([], items, path, o)
        else
          && out == [Object(d.fields["fields" := List(Below(out[0]))])]
          && (o.skipEmptyFields && IsGroup(Field(d.fields, "type"), o) ==> Below(out[0]) != [])
          && AllStandFor(Below(out[0]), items, path, o)
      case _ => false
  }

  ghost predicate ImportStands(out: seq<Json>, fd: Imported, def: Fields, o: InjectOptions) {
    && !(fd.disallowAtTopLevel && o.disallowAtTopLevel)
    && if o.skipEmptyFields && !o.keepExternal && IsGroup(FinalType(fd, def, o), o)
       && Field(def, "fields") in [Null, List([])] then out == []
       else |out| == 1 && out[0].Object? && ImportedOver(out[0].fields, fd, def, o)
  }

  /** One after the other, each definition is stood for by none or one. */
  ghost predicate AllStandFor(r: seq<Json>, ds: seq<Json>, root: string, o: InjectOptions)
    decreases ds, 0
  {
    if ds == [] then r == []
    else
      || (StandsFor([], ds[0], root, o) && AllStandFor(r, ds[1..], root, o))
      || (r != [] && StandsFor([r[0]], ds[0], root, o) && AllStandFor(r[1..], ds[1..], root, o))
  }

  lemma {:induction false} KeepStands(d: Json, def: Fields, changed: bool, root: string, o: InjectOptions)
    requires d.Object? && StringOf(Field(d.fields, "name"), o).Some?
    requires Field(d.fields, "external").Null? && Field(def, "external").Null?
    requires Field(def, "type") == Field(d.fields, "type")
    requires match Field(d.fields, "fields")
             case Null => def == d.fields
             case List(items) =>
               exists r :: def == d.fields["fields" := List(r)] &&
                 AllStandFor(r, items, Under(root, StringOf(Field(d.fields, "name"), o).value), o)
             case _ => false
    ensures StandsFor(Keep(def, changed, o).0, d, root, o)
  {
    assert Field(d.fields, "fields").List? ==> Below(Object(def)) == Field(def, "fields").items;
  }

  lemma KeptImportStands(fd: Imported, def: Fields, o: InjectOptions)
    requires !(fd.disallowAtTopLevel && o.disallowAtTopLevel) && !Field(def, "external").Null?
    ensures ImportStands(Keep(Import(fd, def, o), true, o).0, fd, def, o)
  {
    ImportKeeps(fd, def, o);
  }

  lemma {:induction false} OneStandsFor(d: Json, root: string, o: InjectOptions)
    requires InjectOne(d, root, o).Some?
    ensures StandsFor(InjectOne(d, root, o).value.0, d, root, o)
    decreases d, 0
  {
    var def := d.fields;
    var path := Under(root, StringOf(Field(def, "name"), o).value);
    if !Field(def, "external").Null? {
      KeptImportStands(o.schema(StringOf(Field(def, "external"), o).value, path).value, def, o);
    } else if Field(def, "fields").List? {
      InjectingStandsFor(Below(d), path, o);
      var r := Inject(Below(d), path, o).value;
      KeepStands(d, def["fields" := List(r.0)], r.1, root, o);
    } else {
      KeepStands(d, def, false, root, o);
    }
  }

  /** At every depth an imported field has the imported type or an allowed override of it, the other definitions keep
      all but their fields, and nothing is left out but empty groups. */
  lemma {:induction false} InjectingStandsFor(ds: seq<Json>, root: string, o: InjectOptions)
    requires Inject(ds, root, o).Some?
    ensures AllStandFor(Inject(ds, root, o).value.0, ds, root, o)
    decreases ds, 1
  {
    if ds != [] {
      OneStandsFor(ds[0], root, o);
      InjectingStandsFor(ds[1..], root, o);
      InjectUnfolds(ds, root, o);
      AtMostOne(InjectOne(ds[0], root, o).value.0, Inject(ds[1..], root, o).value.0);
    }
  }

  datatype NameTree = NameTree(name: Json, below: seq<NameTree>)

  function NamesOf(d: Json): NameTree
    decreases d, 1
  {
    if !d.Object? then NameTree(Null, []) else
    var fields := Field(d.fields, "fields");
    NameTree(Field(d.fields, "name"), if fields.List? then AllNames(fields.items) else [])
  }

  function AllNames(ds: seq<Json>): seq<NameTree>
    decreases ds, 0
  {
    if ds == [] then [] else [NamesOf(ds[0])] + AllNames(ds[1..])
  }

  lemma {:induction false} OneKeepsNames(d: Json, root: string, o: InjectOptions)
    requires !o.skipEmptyFields && InjectOne(d, root, o).Some?
    ensures |InjectOne(d, root, o).value.0| == 1 && NamesOf(InjectOne(d, root, o).value.0[0]) == NamesOf(d)
    decreases d, 0
  {
    var def := d.fields;
    var path := Under(root, StringOf(Field(def, "name"), o).value);
    if !Field(def, "external").Null? {
      var fd := o.schema(StringOf(Field(def, "external"), o).value, path).value;
      ImportKeeps(fd, def, o);
      assert Below(Object(Import(fd, def, o))) == Below(d);
    } else if Field(def, "fields").List? {
      InjectingKeepsNames(Below(d), path, o);
    }
  }

  /** Without skipping, all names and their order are the same at every depth. */
  lemma {:induction false} InjectingKeepsNames(ds: seq<Json>, root: string, o: InjectOptions)
    requires !o.skipEmptyFields && Inject(ds, root, o).Some?
    ensures AllNames(Inject(ds, root, o).value.0) == AllNames(ds)
    decreases ds, 1
  {
    if ds != [] {
      OneKeepsNames(ds[0], root, o);
      InjectingKeepsNames(ds[1..], root, o);
      var first, rest := InjectOne(ds[0], root, o).value.0, Inject(ds[1..], root, o).value.0;
      assert first == [first[0]] && (first + rest)[1..] == rest;
    }
  }

  lemma {:induction false} OneUnchanged(d: Json, root: string, o: InjectOptions)
    requires InjectOne(d, root, o).Some? && !InjectOne(d, root, o).value.1
    ensures InjectOne(d, root, o).value.0 == [d]
    decreases d, 0
  {
    var def := d.fields;
    if Field(def, "fields").List? {
      var path := Under(root, StringOf(Field(def, "name"), o).value);
      UnchangedIsSame(Below(d), path, o);
      assert def["fields" := def["fields"]] == def;
    }
  }

  /** Injecting reports a change unless everything is as before. */
  lemma {:induction false} UnchangedIsSame(ds: seq<Json>, root: string, o: InjectOptions)
    requires Inject(ds, root, o).Some? && !Inject(ds, root, o).value.1
    ensures Inject(ds, root, o).value.0 == ds
    decreases ds, 1
  {
    if ds != [] {
      OneUnchanged(ds[0], root, o);
      UnchangedIsSame(ds[1..], root, o);
    }
  }
}