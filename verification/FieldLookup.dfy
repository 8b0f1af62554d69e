/** Finding the definition of a field in a tree of definitions. */
module FieldLookup {
  import opened DottedKeys
  import opened Options
  import opened KeyMatch
  import opened Sequences

  /** A string without its leading dots. */
  function TrimDots(s: string): (r: string)
    ensures |r| <= |s| && r == s[|s| - |r|..] && (r != "" ==> r[0] != '.')
  {
    if s != "" && s[0] == '.' then TrimDots(s[1..]) else s
  }

  function FullName(root: string, name: string): string {
    TrimDots(root + "." + name)
  }

  /** The part of `key` before its last dot. */
  function Parent(key: string): (p: Option<string>)
    ensures p.Some? <==> '.' in key
    ensures p.Some? ==> |p.value| < |key| && key[..|p.value|] == p.value && key[|p.value|] == '.'
                        && '.' !in key[|p.value| + 1..]
  {
    if key == "" then None
    else if key[|key| - 1] == '.' then Some(key[..|key| - 1])
    else
      assert key == key[..|key| - 1] + [key[|key| - 1]];
      match Parent(key[..|key| - 1])
      case None => None
      case Some(p) =>
        assert key[|p| + 1..] == key[..|key| - 1][|p| + 1..] + [key[|key| - 1]];
        Some(p)
  }

  /** findElementDefinitionForRoot */
  function FindForRoot(root: string, searched: string, defs: seq<FieldDefinition>): Option<FieldDefinition>
    decreases |searched|, defs, 1
  {
    match FindAmong(root, searched, defs)
    case Some(def) => Some(def)
    case None =>
      if root == "" then
        // Only at the top level may the parent pass its object type on.
        match Parent(searched)
        case None => None
        case Some(parentKey) => Inherit(searched, FindForRoot("", parentKey, defs))
      else None
  }

  /** The loop of findElementDefinitionForRoot over the definitions of one level. */
  function FindAmong(root: string, searched: string, defs: seq<FieldDefinition>): Option<FieldDefinition>
    decreases |searched|, defs, 0
  {
    if defs == [] then None else
    var def := defs[0];
    var key := FullName(root, def.name);
    if KeysMatch(key, def, searched) then Some(def)
    else
      match FindForRoot(key, searched, def.fields)
      case Some(d) => Some(d)
      case None =>
        match FindForRoot(key, searched, def.multiFields)
        case Some(d) => Some(d)
        case None => FindAmong(root, searched, defs[1..])
  }

  /** What a field without a definition takes from its parent. */
  function Inherit(searched: string, parent: Option<FieldDefinition>): Option<FieldDefinition> {
    match parent
    case None => None
    case Some(p) =>
      if p.typ == "object" && p.objectType != ""
      then Some(p.(name := searched, typ := p.objectType, objectType := ""))
      else None
  }

  function FindElementDefinition(searched: string, defs: seq<FieldDefinition>): Option<FieldDefinition> {
    FindForRoot("", searched, defs)
  }

  function FindParentDefinition(key: string, defs: seq<FieldDefinition>): Option<FieldDefinition> {
    match Parent(key)
    case None => None
    case Some(p) => FindElementDefinition(p, defs)
  }

  // ----- The flat view

  /** All definitions with their full names, parents before their fields and those before their multi-fields. */
  function Flat(root: string, defs: seq<FieldDefinition>): seq<(string, FieldDefinition)>
    decreases defs
  {
    if defs == [] then [] else
    var key := FullName(root, defs[0].name);
    [(key, defs[0])] + Flat(key, defs[0].fields) + Flat(key, defs[0].multiFields) + Flat(root, defs[1..])
  }

  lemma {:induction false} FlatUnfolds(root: string, d: FieldDefinition, rest: seq<FieldDefinition>)
    ensures var key := FullName(root, d.name);
            Flat(root, [d] + rest) == [(key, d)] + Flat(key, d.fields) + Flat(key, d.multiFields) + Flat(root, rest)
  {
    assert ([d] + rest)[0] == d && ([d] + rest)[1..] == rest;
  }

  predicate MatchAt(flat: seq<(string, FieldDefinition)>, i: nat, searched: string)
    requires i < |flat|
  {
    KeysMatch(flat[i].0, flat[i].1, searched)
  }

  /** The first definition of a flat list that matches. */
  function FirstMatch(flat: seq<(string, FieldDefinition)>, searched: string): (r: Option<FieldDefinition>)
    ensures r.None? ==> forall i :: 0 <= i < |flat| ==> !MatchAt(flat, i, searched)
    ensures r.Some? ==> exists i :: 0 <= i < |flat| && MatchAt(flat, i, searched) && r.value == flat[i].1
                                    && forall j :: 0 <= j < i ==> !MatchAt(flat, j, searched)
  {
    if flat == [] then None
    else if MatchAt(flat, 0, searched) then Some(flat[0].1)
    else
      var r := FirstMatch(flat[1..], searched);
      assert forall j {:trigger MatchAt(flat, j, searched)} :: 1 <= j < |flat| ==>
        MatchAt(flat, j, searched) == MatchAt(flat[1..], j - 1, searched);
      assert r.Some? ==>
        var i :| 0 <= i < |flat[1..]| && MatchAt(flat[1..], i, searched) && r.value == flat[1..][i].1
                 && forall j :: 0 <= j < i ==> !MatchAt(flat[1..], j, searched);
        MatchAt(flat, i + 1, searched) && r.value == flat[i + 1].1;
      r
  }

  lemma {:induction false} FirstMatchConcat(a: seq<(string, FieldDefinition)>, b: seq<(string, FieldDefinition)>,
                                            searched: string)
    ensures FirstMatch(a + b, searched)
         == if FirstMatch(a, searched).Some? then FirstMatch(a, searched) else FirstMatch(b, searched)
    decreases |a|
  {
    if a == [] {
      assert a + b == b;
    } else {
      assert (a + b)[1..] == a[1..] + b;
      FirstMatchConcat(a[1..], b, searched);
    }
  }

  /** None of the definitions passes an object type on. */
  predicate Untyped(flat: seq<(string, FieldDefinition)>) {
    forall x | x in flat :: !PassesTypeOn(x.1)
  }

  predicate PassesTypeOn(def: FieldDefinition) {
    def.typ == "object" && def.objectType != ""
  }

  /** Below the names that leave the root empty, none passes an object type on. */
  predicate UntypedBelowEmpty(root: string, defs: seq<FieldDefinition>) {
    forall d | d in defs && FullName(root, d.name) == "" ::
      Untyped(Flat("", d.fields)) && Untyped(Flat("", d.multiFields))
  }

  /** The search is for the first match in the flat list, below the top level or where no type is passed on. */
  lemma {:induction false} NestedFindIsFlat(root: string, searched: string, defs: seq<FieldDefinition>)
    requires if root == "" then Untyped(Flat("", defs)) else root[0] != '.'
    ensures FindAmong(root, searched, defs) == FirstMatch(Flat(root, defs), searched)
    ensures FindForRoot(root, searched, defs) == FirstMatch(Flat(root, defs), searched)
    decreases |searched|, defs, 1
  {
    PartsAreUntyped(root, defs);
    LevelIsFlat(root, searched, defs);
    if root == "" && FirstMatch(Flat("", defs), searched).None? && Parent(searched).Some? {
      NestedFindIsFlat("", Parent(searched).value, defs);
      NothingInherited(Flat("", defs), searched, Parent(searched).value);
    }
  }

  lemma {:induction false} NothingInherited(flat: seq<(string, FieldDefinition)>, searched: string, parentKey: string)
    requires Untyped(flat)
    ensures Inherit(searched, FirstMatch(flat, parentKey)) == None
  {
    var r := FirstMatch(flat, parentKey);
    if r.Some? {
      var i :| 0 <= i < |flat| && MatchAt(flat, i, parentKey) && r.value == flat[i].1;
      assert flat[i] in flat;
    }
  }

  lemma {:induction false} PartsAreUntyped(root: string, defs: seq<FieldDefinition>)
    requires if root == "" then Untyped(Flat("", defs)) else root[0] != '.'
    ensures UntypedBelowEmpty(root, defs)
    decreases |defs|
  {
    if root == "" && defs != [] {
      var d, rest := defs[0], defs[1..];
      var key := FullName("", d.name);
      assert [d] + rest == defs;
      FlatUnfolds("", d, rest);
      UntypedParts([(key, d)], Flat(key, d.fields), Flat(key, d.multiFields), Flat("", rest));
      PartsAreUntyped("", rest);
      MembersOf(defs);
    }
  }

  lemma UntypedParts(a: seq<(string, FieldDefinition)>, b: seq<(string, FieldDefinition)>,
                     c: seq<(string, FieldDefinition)>, d: seq<(string, FieldDefinition)>)
    requires Untyped(a + b + c + d)
    ensures Untyped(b) && Untyped(c) && Untyped(d)
  {
    assert forall x | x in b || x in c || x in d :: x in a + b + c + d;
  }

  lemma {:induction false} LevelIsFlat(root: string, searched: string, defs: seq<FieldDefinition>)
    requires (root == "" || root[0] != '.') && UntypedBelowEmpty(root, defs)
    ensures FindAmong(root, searched, defs) == FirstMatch(Flat(root, defs), searched)
    decreases |searched|, defs, 0
  {
    if defs != [] {
      var d, rest := defs[0], defs[1..];
      var key := FullName(root, d.name);
      var head, f, m := [(key, d)], Flat(key, d.fields), Flat(key, d.multiFields);
      NestedFindIsFlat(key, searched, d.fields);
      NestedFindIsFlat(key, searched, d.multiFields);
      LevelIsFlat(root, searched, rest);
      FirstMatchConcat(head + f + m, Flat(root, rest), searched);
      FirstMatchConcat(head + f, m, searched);
      FirstMatchConcat(head, f, searched);
      assert FirstMatch(head, searched) == if KeysMatch(key, d, searched) then Some(d) else None;
    }
  }

  /** Searching a flat list: the first match, or what the first match of the parent passes on. */
  function LookUp(flat: seq<(string, FieldDefinition)>, searched: string): Option<FieldDefinition> {
    match FirstMatch(flat, searched)
    case Some(def) => Some(def)
    case None =>
      match Parent(searched)
      case None => None
      case Some(parentKey) =>
        match FirstMatch(flat, parentKey)
        case None => None
        case Some(p) =>
          // An object that gives its fields a type: the field is of that type, and the rest is the object's.
          if p.typ != "object" || p.objectType == "" then None
          else
            Some(FieldDefinition(searched, p.objectType, "", p.external, p.metricType, p.fields, p.multiFields))
  }

  /** If no type is passed on below names that are empty or only dots, the search over the tree is the search over the
      flat list. */
  lemma {:induction false} FindIsFlatLookUp(searched: string, defs: seq<FieldDefinition>,
                                            flat: seq<(string, FieldDefinition)>)
    requires UntypedBelowEmpty("", defs) && flat == Flat("", defs)
    ensures FindElementDefinition(searched, defs) == LookUp(flat, searched)
    decreases |searched|
  {
    FindUnfolds(searched, defs);
    LevelIsFlat("", searched, defs);
    if Parent(searched).Some? {
      var parentKey := Parent(searched).value;
      FindIsFlatLookUp(parentKey, defs, flat);
      InheritsOnce(searched, parentKey, flat);
    }
  }

  lemma {:induction false} FindUnfolds(searched: string, defs: seq<FieldDefinition>)
    ensures var r, p := FindAmong("", searched, defs), Parent(searched);
            FindElementDefinition(searched, defs)
              == if r.Some? then r
                 else if p.None? then None
                 else Inherit(searched, FindElementDefinition(p.value, defs))
  {
  }

  /** What an inherited definition would pass on is not passed on. */
  lemma {:induction false} InheritsOnce(searched: string, parentKey: string, flat: seq<(string, FieldDefinition)>)
    ensures Inherit(searched, LookUp(flat, parentKey)) == Inherit(searched, FirstMatch(flat, parentKey))
  {
  }

  lemma {:induction false} TopLevelName(name: string)
    ensures FullName("", name) == TrimDots(name)
  {
    assert ("" + "." + name)[1..] == name;
  }

  /** A definition handed down from a parent is not handed down again. */
  lemma {:induction false} InheritanceDoesNotChain(searched: string, child: string, defs: seq<FieldDefinition>,
                                                   flat: seq<(string, FieldDefinition)>)
    requires UntypedBelowEmpty("", defs) && flat == Flat("", defs) && Parent(child) == Some(searched)
    requires FirstMatch(flat, searched).None? && FirstMatch(flat, child).None?
    ensures FindElementDefinition(child, defs) == None
  {
    FindIsFlatLookUp(child, defs, flat);
  }

  // ----- A field of the top level without a name

  function Unnamed(fields: seq<FieldDefinition>): FieldDefinition {
    FieldDefinition("", "group", "", "", "", fields, [])
  }

  /** An object that gives its fields a type. */
  function TypedObject(name: string, typ: string): FieldDefinition {
    FieldDefinition(name, "object", typ, "", "", [], [])
  }

  function LongField(name: string): FieldDefinition {
    FieldDefinition(name, "long", "", "", "", [], [])
  }

  lemma OtherNumberOfSegments(key: string, def: FieldDefinition, searched: string)
    requires '.' !in key && '.' in searched
    requires !OfType(def, "geo_point") && !OfType(def, "histogram") && def.external == ""
    ensures !KeysMatch(key, def, searched)
  {
    assert Dots(key) == 0 && Dots(searched) > 0;
  }

  lemma MatchesItself(key: string, def: FieldDefinition)
    ensures KeysMatch(key, def, key)
  {
    assert forall i :: 0 <= i < |Segments(key)| ==> SegmentMatches(Segments(key)[i], Segments(key)[i]);
  }

  lemma {:induction false} SoleLeafFound(key: string, def: FieldDefinition, searched: string)
    requires FullName("", def.name) == key != "" && def.fields == def.multiFields == []
    ensures FindAmong("", searched, [def]) == if KeysMatch(key, def, searched) then Some(def) else None
    ensures Flat("", [def]) == [(key, def)]
  {
    assert [def][1..] == [];
    assert FindForRoot(key, searched, []) == None;
  }

  lemma {:induction false} ParentIs(k: string, a: string)
    requires |a| < |k| && k[..|a|] == a && k[|a|] == '.' && forall i :: |a| < i < |k| ==> k[i] != '.'
    ensures Parent(k) == Some(a)
  {
    var p := Parent(k).value;
    var after := k[|p| + 1..];
    assert |p| >= |a|;
  }

  lemma {:induction false} ParentOf(k: string, a: string, b: string)
    requires k == a + "." + b && '.' !in b
    ensures '.' in k && Parent(k) == Some(a)
  {
    assert k[|a|] == '.' && k[..|a|] == a;
    assert forall i :: |a| < i < |k| ==> k[i] == b[i - |a| - 1];
    ParentIs(k, a);
  }

  /** What the search finds below a field: the field itself for the sub-fields of its type, and else what an object
      gives its fields. */
  lemma SubFieldsFound(key: string, def: FieldDefinition, b: string)
    requires FullName("", def.name) == key != "" && def.fields == def.multiFields == [] && '.' !in b
    ensures var typ := if def.typ == "object" && def.objectType != "" then def.objectType else def.typ;
            var found := FindElementDefinition(key + "." + b, [def]);
            && (typ == "geo_point" ==> (found == Some(def) <==> b == "lat" || b == "lon"))
            && (typ == "histogram" ==> (found == Some(def) <==> b == "values" || b == "counts"))
            && (typ != "geo_point" && typ != "histogram" ==>
                  (found == Some(def) <==> def.external != "" && b in {"lat", "lon", "values", "counts"}))
            && (found != Some(def) ==>
                  found == if def.typ == "object" && def.objectType != ""
                           then Some(def.(name := key + "." + b, typ := def.objectType, objectType := "")) else None)
  {
    var a := "." + b;
    var searched := key + a;
    assert searched == key + "." + b;
    MatchesSubField(key, def, a);
    MatchesItself(key, def);
    ParentOf(searched, key, b);
    SoleLeafFound(key, def, searched);
    SoleLeafFound(key, def, key);
    FindUnfolds(searched, [def]);
    FindUnfolds(key, [def]);
    NameIsOther(key, def.name, a);
    SubFieldNamed(def, b);
  }

  lemma SubFieldNamed(def: FieldDefinition, b: string)
    ensures HasSubField(def, "." + b)
       <==> || (OfType(def, "geo_point") && (b == "lat" || b == "lon"))
            || (OfType(def, "histogram") && (b == "values" || b == "counts"))
            || (!OfType(def, "geo_point") && !OfType(def, "histogram") && def.external != ""
                && b in {"lat", "lon", "values", "counts"})
  {
    assert ("." + b)[1..] == b;
    assert ".lat" == "." + "lat" && ".lon" == "." + "lon";
    assert ".values" == "." + "values" && ".counts" == "." + "counts";
  }

  lemma NameIsOther(key: string, name: string, a: string)
    requires FullName("", name) == key != "" && a != ""
    ensures name != key + a
  {
    TopLevelName(name);
    assert key[0] != '.' && (key + a)[0] == key[0];
  }

  /** A search below the field without a name falls back to the parent. */
  lemma {:induction false} FallsBack(a: string, searched: string, parent: FieldDefinition)
    requires FullName("", parent.name) == a != "" && parent.fields == parent.multiFields == []
    requires !KeysMatch(a, parent, searched) && Parent(searched) == Some(a)
    ensures FindElementDefinition(searched, [parent]) == Inherit(searched, Some(parent))
  {
    MatchesItself(a, parent);
    SoleLeafFound(a, parent, searched);
    SoleLeafFound(a, parent, a);
    FindUnfolds(searched, [parent]);
    FindUnfolds(a, [parent]);
  }

  lemma {:induction false} FindAmongUnfolds(root: string, searched: string, d: FieldDefinition,
                                            rest: seq<FieldDefinition>)
    ensures var key := FullName(root, d.name);
            var below, sub := FindForRoot(key, searched, d.fields), FindForRoot(key, searched, d.multiFields);
            FindAmong(root, searched, [d] + rest)
              == if KeysMatch(key, d, searched) then Some(d)
                 else if below.Some? then below
                 else if sub.Some? then sub
                 else FindAmong(root, searched, rest)
  {
    assert ([d] + rest)[0] == d && ([d] + rest)[1..] == rest;
  }

  lemma FindBelowUnnamed(searched: string, parent: FieldDefinition, field: FieldDefinition)
    requires !KeysMatch("", Unnamed([parent]), searched) && FindElementDefinition(searched, [parent]).Some?
    ensures FindElementDefinition(searched, [Unnamed([parent])] + [field]) == FindElementDefinition(searched, [parent])
  {
    TopLevelName("");
    FindUnfolds(searched, [Unnamed([parent])] + [field]);
    FindAmongUnfolds("", searched, Unnamed([parent]), [field]);
  }

  lemma {:induction false} ThirdMatches(x: (string, FieldDefinition), y: (string, FieldDefinition),
                                        z: (string, FieldDefinition), searched: string)
    requires !KeysMatch(x.0, x.1, searched) && !KeysMatch(y.0, y.1, searched) && KeysMatch(z.0, z.1, searched)
    ensures FirstMatch([x] + [y] + [] + [z], searched) == Some(z.1)
  {
    FirstMatchConcat([x] + [y] + [], [z], searched);
    FirstMatchConcat([x] + [y], [], searched);
    FirstMatchConcat([x], [y], searched);
  }

  lemma {:induction false} FlatFindsField(a: string, searched: string, parent: FieldDefinition, field: FieldDefinition)
    requires Flat("", [parent]) == [(a, parent)] && Flat("", [field]) == [(searched, field)]
    requires !KeysMatch("", Unnamed([parent]), searched) && !KeysMatch(a, parent, searched)
    ensures FirstMatch(Flat("", [Unnamed([parent])] + [field]), searched) == Some(field)
  {
    MatchesItself(searched, field);
    TopLevelName("");
    FlatUnfolds("", Unnamed([parent]), [field]);
    ThirdMatches(("", Unnamed([parent])), (a, parent), (searched, field), searched);
  }

  /** The object gives its type. */
  lemma {:induction false} UnnamedGivesType(a: string, searched: string, parent: FieldDefinition,
                                            field: FieldDefinition)
    requires FullName("", parent.name) == a != "" && parent.fields == parent.multiFields == []
    requires !KeysMatch("", Unnamed([parent]), searched) && !KeysMatch(a, parent, searched)
    requires Parent(searched) == Some(a) && PassesTypeOn(parent)
    ensures var r := FindElementDefinition(searched, [Unnamed([parent])] + [field]);
            r.Some? && r.value.typ == parent.objectType
  {
    FallsBack(a, searched, parent);
    FindBelowUnnamed(searched, parent, field);
  }

  /** The flat list has the field. */
  lemma FlatHasField(a: string, searched: string, parent: FieldDefinition, field: FieldDefinition)
    requires FullName("", parent.name) == a != "" && parent.fields == parent.multiFields == []
    requires FullName("", field.name) == searched != "" && field.fields == field.multiFields == []
    requires !KeysMatch("", Unnamed([parent]), searched) && !KeysMatch(a, parent, searched)
    ensures LookUp(Flat("", [Unnamed([parent])] + [field]), searched) == Some(field)
  {
    SoleLeafFound(a, parent, searched);
    SoleLeafFound(searched, field, searched);
    FlatFindsField(a, searched, parent, field);
  }

  lemma NeitherMatches(a: string, b: string, typ: string)
    requires '.' !in a && typ !in ["", "geo_point", "histogram"]
    ensures !KeysMatch("", Unnamed([TypedObject(a, typ)]), a + "." + b)
    ensures !KeysMatch(a, TypedObject(a, typ), a + "." + b)
  {
    assert (a + "." + b)[|a|] == '.';
    OtherNumberOfSegments("", Unnamed([TypedObject(a, typ)]), a + "." + b);
    OtherNumberOfSegments(a, TypedObject(a, typ), a + "." + b);
  }

  /** With such a field the search may find less than the flat list has: it falls back too early. */
  lemma UnnamedHidesField(a: string, b: string, typ: string)
    requires a != "" && '.' !in a && '.' !in b && typ !in ["", "long", "geo_point", "histogram"]
    ensures var field, searched := LongField(a + "." + b), a + "." + b;
            var defs := [Unnamed([TypedObject(a, typ)])] + [field];
            && FindElementDefinition(searched, defs).Some?
            && FindElementDefinition(searched, defs).value.typ == typ
            && LookUp(Flat("", defs), searched) == Some(field)
  {
    var searched := a + "." + b;
    TopLevelName(a);
    TopLevelName(searched);
    assert searched[0] == a[0];
    ParentOf(searched, a, b);
    NeitherMatches(a, b, typ);
    UnnamedGivesType(a, searched, TypedObject(a, typ), LongField(searched));
    FlatHasField(a, searched, TypedObject(a, typ), LongField(searched));
  }

  /** findAncestorElementDefinition: the definition of the nearest ancestor that meets a condition. */
  method FindAncestor(key: string, defs: seq<FieldDefinition>, cond: (string, FieldDefinition) -> bool)
    returns (found: Option<FieldDefinition>)
    ensures found.Some? ==>
      exists n :: (IsAncestor(key, n, defs, cond) && found == FindElementDefinition(key[..n], defs)
                   && forall m :: n < m ==> !IsAncestor(key, m, defs, cond))
    ensures found.None? ==> forall n :: !IsAncestor(key, n, defs, cond)
  {
    var k := key;
    while '.' in k
      invariant |k| <= |key| && k == key[..|k|]
      invariant forall n :: |k| <= n ==> !IsAncestor(key, n, defs, cond)
      decreases |k|
    {
      var p := Parent(k).value;
      assert forall n :: |p| < n < |k| ==> key[n] == k[|p| + 1..][n - |p| - 1];
      assert p == key[..|p|];
      k := p;
      var ancestor := FindElementDefinition(k, defs);
      if ancestor.Some? && cond(k, ancestor.value) {
        assert key[..|k|] == k;
        assert IsAncestor(key, |k|, defs, cond);
        return ancestor;
      }
    }
    return None;
  }

  /** The first `n` characters of `key` are an ancestor whose definition meets the condition. */
  predicate IsAncestor(key: string, n: int, defs: seq<FieldDefinition>, cond: (string, FieldDefinition) -> bool) {
    && 0 <= n < |key| && key[n] == '.'
    && FindElementDefinition(key[..n], defs).Some?
    && cond(key[..n], FindElementDefinition(key[..n], defs).value)
  }
}
