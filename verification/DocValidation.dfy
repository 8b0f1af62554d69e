/** Validating a document: every spelling of its keys gives the same errors. */
module DocValidation {
  import opened DottedKeys
  import opened Json
  import opened KeyMatch
  import opened FieldLookup
  import opened MapStr

  datatype Problem = Problem(key: string, reason: string)

  /**
   * `scalar` checks a single value, given the document's event type. `skipsLeaves` holds for specifications
   * before 3.0.1.
   */
  datatype Validator = Validator(
    schema: seq<FieldDefinition>, skipsLeaves: bool, scalar: (string, Json, Json) -> set<Problem>)

  predicate IsFlattened(key: string, v: Validator) {
    var def := FindElementDefinition(key, v.schema);
    def.Some? && def.value.typ == "flattened"
  }

  /** The condition on ancestors that makes skipLeafOfObject skip. */
  function TraversedWithin(root: string): (string, FieldDefinition) -> bool {
    (key: string, def: FieldDefinition) => |key| >= |root| && def.typ in {"group", "object", "nested", "flattened"}
  }

  /** skipLeafOfObject */
  ghost predicate Skips(root: string, name: string, v: Validator) {
    v.skipsLeaves && '.' in name && HasAncestor(Under(root, name), root, v)
  }

  ghost predicate HasAncestor(key: string, root: string, v: Validator) {
    exists n :: IsObjectAt(key, n, root, v)
  }

  /** The first `n` characters of the key, which are not beyond the root, are a field of a type that holds others. */
  ghost predicate IsObjectAt(key: string, n: int, root: string, v: Validator) {
    && 0 <= n < |key| && key[n] == '.' && n >= |root|
    && (|| HasType(key[..n], "group", v) || HasType(key[..n], "object", v)
        || HasType(key[..n], "nested", v) || HasType(key[..n], "flattened", v))
  }

  ghost predicate HasType(key: string, typ: string, v: Validator) {
    var def := FindElementDefinition(key, v.schema);
    def.Some? && def.value.typ == typ
  }

  lemma AncestorsAre(key: string, n: int, root: string, v: Validator)
    ensures IsAncestor(key, n, v.schema, TraversedWithin(root)) <==> IsObjectAt(key, n, root, v)
  {
  }

  /** validateMapElement: what is wrong below `root`. */
  ghost function Errors(root: string, elem: Fields, eventType: Json, v: Validator): set<Problem>
    decreases Object(elem), 1
  {
    set name, e | name in elem && e in EntryErrors(root, name, elem, eventType, v) :: e
  }

  ghost function EntryErrors(root: string, name: string, elem: Fields, eventType: Json, v: Validator): set<Problem>
    requires name in elem
    decreases Object(elem), 0
  {
    var key := FullName(root, name);
    if !elem[name].Object? then LeafErrors(root, name, elem[name], eventType, v)
    else if IsFlattened(key, v) then {}
    else Errors(key, elem[name].fields, eventType, v)
  }

  ghost function LeafErrors(root: string, name: string, val: Json, eventType: Json, v: Validator): set<Problem> {
    if Skips(root, name, v) then {} else v.scalar(FullName(root, name), val, eventType)
  }

  ghost function ErrorsAmong(root: string, elem: Fields, names: set<string>, eventType: Json, v: Validator)
    : set<Problem>
  {
    set name, e | name in names && name in elem && e in EntryErrors(root, name, elem, eventType, v) :: e
  }

  method SkipLeafOfObject(root: string, name: string, v: Validator) returns (skip: bool)
    ensures skip <==> Skips(root, name, v)
  {
    if !v.skipsLeaves || '.' !in name {
      return false;
    }
    var ancestor := FindAncestor(Under(root, name), v.schema, TraversedWithin(root));
    forall n ensures IsAncestor(Under(root, name), n, v.schema, TraversedWithin(root))
                <==> IsObjectAt(Under(root, name), n, root, v)
    {
      AncestorsAre(Under(root, name), n, root, v);
    }
    return ancestor.Some?;
  }

  /** validateMapElement, over the entries in any order. */
  method ValidateMapElement(root: string, elem: Fields, eventType: Json, v: Validator) returns (errs: set<Problem>)
    ensures errs == Errors(root, elem, eventType, v)
    decreases Object(elem), 1
  {
    errs := {};
    var todo := elem.Keys;
    while todo != {}
      invariant todo <= elem.Keys
      invariant errs == ErrorsAmong(root, elem, elem.Keys - todo, eventType, v)
      decreases todo
    {
      var name :| name in todo;
      var more := ValidateEntry(root, name, elem, eventType, v);
      OneMoreEntry(root, elem, todo, name, eventType, v);
      errs := errs + more;
      todo := todo - {name};
    }
  }

  /** One turn of the loop. */
  method ValidateEntry(root: string, name: string, elem: Fields, eventType: Json, v: Validator)
    returns (errs: set<Problem>)
    requires name in elem
    ensures errs == EntryErrors(root, name, elem, eventType, v)
    decreases Object(elem), 0
  {
    match elem[name] {
      case Object(sub) =>
        // Nothing below a flattened object is seen.
        if IsFlattened(FullName(root, name), v) {
          return {};
        }
        errs := ValidateMapElement(FullName(root, name), sub, eventType, v);
      case val =>
        errs := ValidateLeaf(root, name, val, eventType, v);
    }
  }

  method ValidateLeaf(root: string, name: string, val: Json, eventType: Json, v: Validator)
    returns (errs: set<Problem>)
    ensures errs == LeafErrors(root, name, val, eventType, v)
  {
    var skip := SkipLeafOfObject(root, name, v);
    return if skip then {} else v.scalar(FullName(root, name), val, eventType);
  }

  lemma {:induction false} OneMoreEntry(root: string, elem: Fields, todo: set<string>, name: string, eventType: Json,
                                        v: Validator)
    requires todo <= elem.Keys && name in todo
    ensures ErrorsAmong(root, elem, elem.Keys - (todo - {name}), eventType, v)
         == ErrorsAmong(root, elem, elem.Keys - todo, eventType, v) + EntryErrors(root, name, elem, eventType, v)
  {
    assert elem.Keys - (todo - {name}) == (elem.Keys - todo) + {name};
  }

  // ----- Documents as what is found at their leaves

  /** Following names through nested objects leads to `val`, which is no object. */
  predicate LeafAt(d: Fields, path: seq<string>, val: Json)
    decreases |path|
  {
    && path != [] && path[0] in d
    && if |path| == 1 then d[path[0]] == val && !val.Object?
       else d[path[0]].Object? && LeafAt(d[path[0]].fields, path[1..], val)
  }

  function Join(path: seq<string>): string
    requires path != []
  {
    if |path| == 1 then path[0] else path[0] + "." + Join(path[1..])
  }

  /** No name is empty or starts with a dot, at any depth. */
  ghost predicate Named(d: Fields)
    decreases Object(d)
  {
    forall k | k in d :: k != "" && k[0] != '.' && (d[k].Object? ==> Named(d[k].fields))
  }

  predicate NamedRoot(root: string) {
    root == "" || root[0] != '.'
  }

  lemma FullNameIsUnder(root: string, name: string)
    requires NamedRoot(root) && name != "" && name[0] != '.'
    ensures FullName(root, name) == Under(root, name) && Under(root, name) != "" && NamedRoot(Under(root, name))
  {
    if root == "" {
      TopLevelName(name);
    }
  }

  lemma {:induction false} UnderJoin(root: string, path: seq<string>)
    requires |path| > 1 && path[0] != ""
    ensures Under(Under(root, path[0]), Join(path[1..])) == Under(root, Join(path))
  {
    var a, b := path[0], Join(path[1..]);
    assert Join(path) == a + "." + b;
    if root != "" {
      assert (root + "." + a) + "." + b == root + "." + (a + "." + b);
    }
  }

  /** The way to a leaf does not end at a flattened object, and the leaf is not skipped. */
  ghost predicate Seen(root: string, path: seq<string>, v: Validator)
    requires path != []
    decreases |path|
  {
    if |path| == 1 then !Skips(root, path[0], v)
    else !HasType(Under(root, path[0]), "flattened", v) && Seen(Under(root, path[0]), path[1..], v)
  }

  ghost predicate ErrorOf(root: string, d: Fields, path: seq<string>, val: Json, eventType: Json, v: Validator,
                          e: Problem)
  {
    LeafAt(d, path, val) && Seen(root, path, v) && e in v.scalar(Under(root, Join(path)), val, eventType)
  }

  /** The errors of an entry, in terms of its full key. */
  lemma {:induction false} EntryErrorsAre(root: string, name: string, d: Fields, eventType: Json, v: Validator)
    requires NamedRoot(root) && name in d && name != "" && name[0] != '.'
    ensures EntryErrors(root, name, d, eventType, v)
         == if !d[name].Object? then
              if Skips(root, name, v) then {} else v.scalar(Under(root, name), d[name], eventType)
            else if HasType(Under(root, name), "flattened", v) then {}
            else Errors(Under(root, name), d[name].fields, eventType, v)
    ensures Under(root, name) != "" && NamedRoot(Under(root, name))
  {
    FullNameIsUnder(root, name);
  }

  lemma LeafHere(root: string, d: Fields, name: string, eventType: Json, v: Validator, e: Problem)
    requires name in d && !d[name].Object? && !Skips(root, name, v)
    requires e in v.scalar(Under(root, name), d[name], eventType)
    ensures ErrorOf(root, d, [name], d[name], eventType, v, e)
  {
    assert [name][0] == name && Join([name]) == name;
  }

  lemma LeafBelow(root: string, d: Fields, name: string, rest: seq<string>, val: Json, eventType: Json, v: Validator,
                  e: Problem)
    requires name in d && name != "" && d[name].Object? && !HasType(Under(root, name), "flattened", v)
    requires ErrorOf(Under(root, name), d[name].fields, rest, val, eventType, v, e)
    ensures ErrorOf(root, d, [name] + rest, val, eventType, v, e)
  {
    var path := [name] + rest;
    assert path[1..] == rest;
    UnderJoin(root, path);
  }

  lemma {:induction false} ErrorsComeFromLeaves(root: string, d: Fields, eventType: Json, v: Validator, e: Problem)
    returns (path: seq<string>, val: Json)
    requires Named(d) && NamedRoot(root) && e in Errors(root, d, eventType, v)
    ensures ErrorOf(root, d, path, val, eventType, v, e)
    decreases Object(d)
  {
    var name :| name in d && e in EntryErrors(root, name, d, eventType, v);
    EntryErrorsAre(root, name, d, eventType, v);
    if d[name].Object? {
      path, val := ErrorsComeFromLeaves(Under(root, name), d[name].fields, eventType, v, e);
      LeafBelow(root, d, name, path, val, eventType, v, e);
      path := [name] + path;
    } else {
      path, val := [name], d[name];
      LeafHere(root, d, name, eventType, v, e);
    }
  }

  lemma {:induction false} LeavesGiveErrors(root: string, d: Fields, path: seq<string>, val: Json, eventType: Json,
                                            v: Validator, e: Problem)
    requires Named(d) && NamedRoot(root) && ErrorOf(root, d, path, val, eventType, v, e)
    ensures e in Errors(root, d, eventType, v)
    decreases |path|
  {
    EntryErrorsAre(root, path[0], d, eventType, v);
    if |path| > 1 {
      UnderJoin(root, path);
      LeavesGiveErrors(Under(root, path[0]), d[path[0]].fields, path[1..], val, eventType, v, e);
    }
    assert e in EntryErrors(root, path[0], d, eventType, v);
  }

  /** The errors of a document are those of its leaves, by full key, unless flattening or skipping hides them. */
  lemma {:induction false} ErrorsAreThoseOfLeaves(d: Fields, eventType: Json, v: Validator, e: Problem)
    requires Named(d)
    ensures e in Errors("", d, eventType, v) <==> exists path, val :: ErrorOf("", d, path, val, eventType, v, e)
  {
    if e in Errors("", d, eventType, v) {
      var path, val := ErrorsComeFromLeaves("", d, eventType, v, e);
    }
    if path, val :| ErrorOf("", d, path, val, eventType, v, e) {
      LeavesGiveErrors("", d, path, val, eventType, v, e);
    }
  }

  // ----- Spellings

  /** Under the full key `k` the document has the value `val`, however the key is split into nested names. */
  ghost predicate HasLeaf(d: Fields, k: string, val: Json) {
    exists path :: LeafAt(d, path, val) && Join(path) == k
  }

  /** Two spellings of one document. */
  ghost predicate SameDocument(a: Fields, b: Fields) {
    forall k, val :: HasLeaf(a, k, val) <==> HasLeaf(b, k, val)
  }

  /** No ancestor of the key is of a flattened type. */
  ghost predicate NotInFlattened(k: string, v: Validator) {
    forall n :: 0 <= n < |k| && k[n] == '.' ==> !HasType(k[..n], "flattened", v)
  }

  lemma {:induction false} SeenOutsideFlattened(root: string, d: Fields, path: seq<string>, val: Json, v: Validator)
    requires !v.skipsLeaves && Named(d) && LeafAt(d, path, val) && NotInFlattened(Under(root, Join(path)), v)
    ensures Seen(root, path, v)
    decreases |path|
  {
    if |path| > 1 {
      var next := Under(root, path[0]);
      var k := Under(root, Join(path));
      UnderJoin(root, path);
      assert k == next + "." + Join(path[1..]);
      assert k[..|next|] == next && k[|next|] == '.';
      SeenOutsideFlattened(next, d[path[0]].fields, path[1..], val, v);
    }
  }

  /** From version 3.0.1, and outside flattened objects, all spellings of a document have the same errors. */
  lemma {:induction false} SpellingDoesNotMatter(a: Fields, b: Fields, eventType: Json, v: Validator)
    requires !v.skipsLeaves && Named(a) && Named(b) && SameDocument(a, b)
    requires forall k, val | HasLeaf(a, k, val) :: NotInFlattened(k, v)
    ensures Errors("", a, eventType, v) == Errors("", b, eventType, v)
  {
    forall e ensures e in Errors("", a, eventType, v) <==> e in Errors("", b, eventType, v) {
      if e in Errors("", a, eventType, v) {
        ErrorCarriesOver(a, b, eventType, v, e);
      }
      if e in Errors("", b, eventType, v) {
        ErrorCarriesOver(b, a, eventType, v, e);
      }
    }
  }

  lemma {:induction false} ErrorCarriesOver(a: Fields, b: Fields, eventType: Json, v: Validator, e: Problem)
    requires !v.skipsLeaves && Named(a) && Named(b) && SameDocument(a, b)
    requires forall k, val | HasLeaf(b, k, val) :: NotInFlattened(k, v)
    requires e in Errors("", a, eventType, v)
    ensures e in Errors("", b, eventType, v)
  {
    var path, val := ErrorsComeFromLeaves("", a, eventType, v, e);
    assert HasLeaf(a, Join(path), val);
    assert HasLeaf(b, Join(path), val);
    var other :| LeafAt(b, other, val) && Join(other) == Join(path);
    SeenOutsideFlattened("", b, other, val, v);
    LeavesGiveErrors("", b, other, val, eventType, v, e);
  }

  /** In older versions it does: a dotted name below an object that is defined is not checked, a nested one is. */
  lemma {:induction false} OlderVersionsSkipDottedNames(group: string, name: string, val: Json, eventType: Json,
                                                        v: Validator)
    requires v.skipsLeaves && group != "" && group[0] != '.' && '.' !in group
    requires name != "" && name[0] != '.' && '.' !in name && !val.Object?
    requires var def := FindElementDefinition(group, v.schema);
             def.Some? && def.value.typ in {"group", "object", "nested"}
    ensures var dotted := group + "." + name;
            && Errors("", map[dotted := val], eventType, v) == {}
            && Errors("", map[group := Object(map[name := val])], eventType, v) == v.scalar(dotted, val, eventType)
  {
    DottedIsSkipped(group, name, v);
    OneEntry("", group + "." + name, val, eventType, v);
    FullNameIsUnder("", group);
    FullNameIsUnder(group, name);
    NestedIsChecked(group, name, val, eventType, v);
  }

  lemma {:induction false} NestedIsChecked(group: string, name: string, val: Json, eventType: Json, v: Validator)
    requires !val.Object? && '.' !in name
    ensures var key := FullName("", group);
            Errors("", map[group := Object(map[name := val])], eventType, v)
            == if HasType(key, "flattened", v) then {} else v.scalar(FullName(key, name), val, eventType)
  {
    var key := FullName("", group);
    OneEntry("", group, Object(map[name := val]), eventType, v);
    OneEntry(key, name, val, eventType, v);
    assert !Skips(key, name, v);
  }

  lemma {:induction false} OneEntry(root: string, name: string, val: Json, eventType: Json, v: Validator)
    ensures Errors(root, map[name := val], eventType, v) == EntryErrors(root, name, map[name := val], eventType, v)
  {
  }

  lemma DottedIsSkipped(group: string, name: string, v: Validator)
    requires v.skipsLeaves
    requires var def := FindElementDefinition(group, v.schema);
             def.Some? && def.value.typ in {"group", "object", "nested"}
    ensures Skips("", group + "." + name, v)
  {
    var dotted := group + "." + name;
    assert dotted[..|group|] == group && dotted[|group|] == '.';
    assert IsObjectAt(dotted, |group|, "", v);
    assert HasAncestor(dotted, "", v);
  }

  // ----- Whole documents

  /** The value that a document has under a key of two parts, Null when it has none. */
  function ValueAt(d: Fields, base: string, name: string): Json {
    match Get(d, base + "." + name)
    case Ok(val) => val
    case Err(_) => Null
  }

  /** The document does not have two values under the key. */
  ghost predicate Unambiguous(d: Fields, k: string) {
    forall val, other :: HasLeaf(d, k, val) && HasLeaf(d, k, other) ==> val == other
  }

  predicate OneSegment(s: string) {
    s != "" && '.' !in s
  }

  lemma CutOnce(base: string, name: string)
    requires OneSegment(base)
    ensures var k := base + "." + name; HasDot(k) && Base(k) == base && Rest(k) == name
  {
    var k := base + "." + name;
    assert k[|base|] == '.';
    assert forall i :: 0 <= i < |base| ==> k[i] == base[i];
    assert FirstDot(k) == |base|;
  }

  lemma {:induction false} FoundIsLeaf(d: Fields, base: string, name: string)
    requires OneSegment(base) && OneSegment(name)
    requires var r := Get(d, base + "." + name); r.Ok? && !r.value.Object?
    ensures HasLeaf(d, base + "." + name, Get(d, base + "." + name).value)
  {
    var k := base + "." + name;
    var val := Get(d, k).value;
    CutOnce(base, name);
    if k in d {
      assert LeafAt(d, [k], val) && Join([k]) == k;
    } else {
      NoDotInSegment(name);
      var path := [base, name];
      assert path[1..] == [name] && Join([name]) == name;
      assert LeafAt(d, path, val) && Join(path) == k;
    }
  }

  lemma NoDotInSegment(s: string)
    requires '.' !in s
    ensures !HasDot(s)
  {
  }

  lemma {:induction false} JoinHasDots(path: seq<string>)
    requires path != []
    ensures |path| > 1 ==> '.' in Join(path)
  {
    if |path| > 1 {
      assert Join(path)[|path[0]|] == '.';
    }
  }

  lemma {:induction false} LeafIsFound(d: Fields, base: string, name: string, val: Json)
    requires OneSegment(base) && OneSegment(name) && Named(d) && HasLeaf(d, base + "." + name, val)
    ensures Get(d, base + "." + name).Ok?
  {
    var k := base + "." + name;
    var path :| LeafAt(d, path, val) && Join(path) == k;
    if |path| > 1 {
      var rest := path[1..];
      TwoParts(path[0], Join(rest), base, name);
      JoinHasDots(rest);
      assert Join(rest) == rest[0] == name;
      assert LeafAt(d[base].fields, rest, val);
      CutOnce(base, name);
      NoDotInSegment(name);
      assert name in d[base].fields;
    }
  }

  lemma TwoParts(a: string, b: string, base: string, name: string)
    requires OneSegment(base) && OneSegment(name) && a + "." + b == base + "." + name
    ensures a == base && b == name
  {
    var k := base + "." + name;
    assert k[|a|] == '.';
    assert forall i :: 0 <= i < |base| ==> k[i] == base[i];
    assert forall i :: 0 <= i < |name| ==> k[|base| + 1 + i] == name[i];
    assert |a| == |base|;
    assert a == k[..|a|] && b == k[|a| + 1..];
  }

  /** Spellings of a document agree on a value under a key of two parts, unless it is an object in one of them. */
  lemma {:induction false} SameValueAt(a: Fields, b: Fields, base: string, name: string)
    requires OneSegment(base) && OneSegment(name) && Named(a) && Named(b) && SameDocument(a, b)
    requires Unambiguous(a, base + "." + name)
    requires !ValueAt(a, base, name).Object? && !ValueAt(b, base, name).Object?
    ensures ValueAt(a, base, name) == ValueAt(b, base, name)
  {
    var k := base + "." + name;
    var x, y := Get(a, k), Get(b, k);
    if x.Ok? {
      FoundIsLeaf(a, base, name);
      assert HasLeaf(b, k, x.value);
      LeafIsFound(b, base, name, x.value);
    }
    if y.Ok? {
      FoundIsLeaf(b, base, name);
      assert HasLeaf(a, k, y.value);
      LeafIsFound(a, base, name, y.value);
    }
  }

  /** The errors of validateMapElement on a whole document. */
  ghost function Validate(d: Fields, v: Validator): set<Problem> {
    Errors("", d, ValueAt(d, "event", "type"), v)
  }

  /** Nested and dotted spellings of one document are equally valid. */
  lemma {:induction false} SpellingsAreEquallyValid(a: Fields, b: Fields, v: Validator)
    requires !v.skipsLeaves && Named(a) && Named(b) && SameDocument(a, b)
    requires Unambiguous(a, "event" + "." + "type")
    requires !ValueAt(a, "event", "type").Object? && !ValueAt(b, "event", "type").Object?
    requires forall k, val | HasLeaf(a, k, val) :: NotInFlattened(k, v)
    ensures Validate(a, v) == Validate(b, v)
  {
    SameValueAt(a, b, "event", "type");
    SpellingDoesNotMatter(a, b, ValueAt(a, "event", "type"), v);
  }
}