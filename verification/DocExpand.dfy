/** Turning a flat document with dotted keys into nested objects. */
module DocExpand {
  import opened DottedKeys
  import opened Json
  import opened Options
  import opened MapStr
  import opened KeyMatch
  import opened FieldLookup

  // ----- Sorting

  /** Lexicographic order of strings. */
  predicate Before(a: string, b: string) {
    b != "" && (a == "" || a[0] < b[0] || (a[0] == b[0] && Before(a[1..], b[1..])))
  }

  /** The strings are the same up to a place where the first has ended or has the smaller character. */
  predicate SmallerAt(a: string, b: string, n: nat) {
    n <= |a| && n < |b| && a[..n] == b[..n] && (n == |a| || a[n] < b[n])
  }

  lemma {:induction false} BeforeExactly(a: string, b: string)
    ensures Before(a, b) <==> exists n :: SmallerAt(a, b, n)
    decreases |a|
  {
    if b != "" && a == "" {
      assert SmallerAt(a, b, 0);
    } else if b != "" {
      assert SmallerAt(a, b, 0) <==> a[0] < b[0];
      BeforeExactly(a[1..], b[1..]);
      forall n: nat ensures SmallerAt(a, b, n + 1) <==> a[0] == b[0] && SmallerAt(a[1..], b[1..], n) {
        SmallerOnward(a, b, n);
      }
      if n: nat :| SmallerAt(a[1..], b[1..], n) {
        assert SmallerAt(a, b, n + 1) <==> a[0] == b[0];
      }
      if n: nat :| SmallerAt(a, b, n) && n > 0 {
        assert SmallerAt(a, b, (n - 1) + 1) <==> a[0] == b[0] && SmallerAt(a[1..], b[1..], n - 1);
      }
    }
  }

  lemma SmallerOnward(a: string, b: string, n: nat)
    requires a != "" && b != ""
    ensures SmallerAt(a, b, n + 1) <==> a[0] == b[0] && SmallerAt(a[1..], b[1..], n)
  {
    if n < |a| && n + 1 < |b| {
      assert a[..n + 1] == [a[0]] + a[1..][..n] && b[..n + 1] == [b[0]] + b[1..][..n];
    }
  }

  lemma {:induction false} BeforeTotal(a: string, b: string)
    ensures a == b || Before(a, b) || Before(b, a)
    decreases |a|
  {
    if a != "" && b != "" && a[0] == b[0] {
      BeforeTotal(a[1..], b[1..]);
      assert a == [a[0]] + a[1..] && b == [b[0]] + b[1..];
    }
  }

  lemma {:induction false} BeforeTransitive(a: string, b: string, c: string)
    requires Before(a, b) && Before(b, c)
    ensures Before(a, c)
    decreases |a|
  {
    if a != "" && a[0] == b[0] && b[0] == c[0] {
      BeforeTransitive(a[1..], b[1..], c[1..]);
    }
  }

  lemma {:induction false} BeforeIrreflexive(a: string, b: string)
    ensures !(Before(a, b) && Before(b, a))
    decreases |a|
  {
    if a != "" && b != "" {
      BeforeIrreflexive(a[1..], b[1..]);
    }
  }

  /** A prefix always sorts first. */
  lemma {:induction false} PrefixSortsFirst(p: string, k: string)
    requires |p| < |k| && k[..|p|] == p
    ensures Before(p, k)
    decreases |p|
  {
    if p != "" {
      assert k[0] == k[..|p|][0] && k[1..][..|p| - 1] == k[..|p|][1..];
      PrefixSortsFirst(p[1..], k[1..]);
    }
  }

  predicate Sorted(keys: seq<string>) {
    forall i, j :: 0 <= i < j < |keys| ==> Before(keys[i], keys[j])
  }

  method Least(keys: set<string>) returns (k: string)
    requires keys != {}
    ensures k in keys && forall o :: o in keys && o != k ==> Before(k, o)
  {
    k :| k in keys;
    var seen := {k};
    while keys - seen != {}
      invariant k in seen && seen <= keys
      invariant forall o :: o in seen && o != k ==> Before(k, o)
      decreases keys - seen
    {
      var o :| o in keys - seen;
      BeforeTotal(o, k);
      if Before(o, k) {
        forall x | x in seen && x != k ensures Before(o, x) {
          BeforeTransitive(o, k, x);
        }
        k := o;
      }
      seen := seen + {o};
    }
  }

  /** The keys of a document in sorted order. */
  method SortedKeys(doc: Fields) returns (keys: seq<string>)
    ensures Sorted(keys) && forall k :: k in keys <==> k in doc
  {
    keys := [];
    var todo := doc.Keys;
    while todo != {}
      invariant todo <= doc.Keys
      invariant Sorted(keys) && forall k :: k in keys <==> k in doc && k !in todo
      invariant forall i, o :: 0 <= i < |keys| && o in todo ==> Before(keys[i], o)
      decreases todo
    {
      var k := Least(todo);
      keys := keys + [k];
      todo := todo - {k};
    }
  }

  // ----- Expanding

  /** A field whose parent is defined as something other than an object could be a multi-field. */
  predicate CouldBeMultifield(key: string, schema: seq<FieldDefinition>) {
    match FindParentDefinition(key, schema)
    case None => false
    case Some(parent) => parent.typ !in {"", "group", "nested", "object"}
  }

  /** No value of the document is itself an object. */
  predicate Flat(doc: Fields) {
    forall k | k in doc :: !doc[k].Object?
  }

  predicate ProperPrefix(p: string, k: string) {
    p != k && DottedPrefix(p, k)
  }

  /** No other key of the document is a dotted prefix of `k`. */
  predicate Kept(doc: Fields, k: string) {
    forall p | p in doc :: !ProperPrefix(p, k)
  }

  /** The values found in `r`, other than objects, are those of the kept keys among `done`, and all of them; there are
      objects where these keys need them and nowhere else. */
  ghost predicate Expands(r: Fields, doc: Fields, done: set<string>) {
    && Nested(r)
    && (forall q: string, v: Json :: !v.Object? ==> FoundAsKept(r, doc, done, q, v))
    && (forall q: string :: ObjectAt(r, q) <==> Needed(doc, done, q))
  }

  predicate ObjectAt(r: Fields, q: string) {
    Get(r, q).Ok? && Get(r, q).value.Object?
  }

  /** A kept key goes on from `q`. */
  ghost predicate Needed(doc: Fields, done: set<string>, q: string) {
    exists k :: NeededFor(doc, done, q, k)
  }

  predicate NeededFor(doc: Fields, done: set<string>, q: string, k: string) {
    k in done && k in doc && Kept(doc, k) && ProperPrefix(q, k)
  }

  ghost predicate FoundAsKept(r: Fields, doc: Fields, done: set<string>, q: string, v: Json) {
    Get(r, q) == Ok(v) <==> q in done && q in doc && Kept(doc, q) && doc[q] == v
  }

  /** The types that Go has for the values of a decoded document, other than objects. */
  datatype Kind = NilKind | BoolKind | NumberKind | StringKind | ListKind | MapKind

  function KindOf(v: Json): Kind {
    match v
    case Null => NilKind
    case Bool(_) => BoolKind
    case Number(_) => NumberKind
    case String(_) => StringKind
    case Text(_, _) => StringKind
    case List(_) => ListKind
    case Object(_) => MapKind
  }

  predicate IsOfKind(v: Json, kind: Kind) {
    match kind
    case NilKind => v.Null?
    case BoolKind => v.Bool?
    case NumberKind => v.Number?
    case StringKind => v.String? || v.Text?
    case ListKind => v.List?
    case MapKind => v.Object?
  }

  lemma KindIs(v: Json, kind: Kind)
    ensures IsOfKind(v, kind) <==> kind == KindOf(v)
  {
  }

  /** A key that was not added, and what was found where a map was expected. */
  datatype Warning = Warning(key: string, kind: Kind)

  /** What Put finds where it expects a map; Null where it finds none amiss. */
  function InTheWay(m: Fields, key: string): Json
    decreases |key|
  {
    if key in m || !HasDot(key) || Base(key) !in m then Null
    else
      match m[Base(key)]
      case Object(sub) => InTheWay(sub, Rest(key))
      case v => v
  }

  /** createDocExpandingObjects */
  method CreateDocExpandingObjects(doc: Fields, schema: seq<FieldDefinition>, loggedWarnings: set<Warning>)
    returns (newDoc: Result<Fields>, multifields: seq<string>, warned: set<Warning>)
    ensures newDoc.Ok?
    ensures Flat(doc) ==> Expands(newDoc.value, doc, doc.Keys)
    ensures Flat(doc) ==> Reported(doc, doc.Keys, schema, multifields, warned, loggedWarnings)
    ensures Sorted(multifields)
  {
    var keys := SortedKeys(doc);
    var r: Fields := map[];
    multifields := [];
    warned := loggedWarnings;
    ghost var done: set<string> := {};
    NothingExpanded(doc);
    for i := 0 to |keys|
      invariant done == set j | 0 <= j < i :: keys[j]
      invariant Flat(doc) ==> Expands(r, doc, done)
      invariant Sorted(multifields) && forall k :: k in multifields ==> k in done
      invariant Flat(doc) ==> Reported(doc, done, schema, multifields, warned, loggedWarnings)
    {
      var k := keys[i];
      assert k in doc;
      var value := Get(doc, k).value;
      var put := Put(r, k, value);
      PutFails(r, k, value);
      BelowFieldExactly(k, schema);
      if Flat(doc) {
        PrefixesAreDone(doc, keys, i, done);
        ReportStep(r, doc, done, k);
        ExpandStep(r, doc, done, k);
      }
      if put.Ok? {
        r := put.value;
      } else {
        // Something that is no object stands at a prefix, so the key is not kept.
        if CouldBeMultifield(k, schema) {
          assert forall m | m in multifields :: Before(m, k);
          multifields := multifields + [k];
        } else {
          warned := warned + {Warning(k, KindOf(InTheWay(r, k)))};
        }
      }
      done := done + {k};
    }
    assert done == doc.Keys;
    newDoc := Ok(r);
  }

  /** Exactly the keys not kept are reported: those that could be multi-fields in a list, the others as warnings. */
  ghost predicate Reported(doc: Fields, done: set<string>, schema: seq<FieldDefinition>, multifields: seq<string>,
                           warned: set<Warning>, logged: set<Warning>) {
    && (forall k :: k in multifields <==> k in done && !Kept(doc, k) && BelowField(k, schema))
    && (forall w :: w in warned <==>
          w in logged || (w.key in done && !BelowField(w.key, schema) && Concerns(w, doc)))
  }

  /** What comes before the last dot of the key is a field, and not one that holds others. */
  ghost predicate BelowField(key: string, schema: seq<FieldDefinition>) {
    exists n :: BelowFieldAt(key, schema, n)
  }

  ghost predicate BelowFieldAt(key: string, schema: seq<FieldDefinition>, n: int) {
    && 0 <= n < |key| && key[n] == '.' && '.' !in key[n + 1..]
    && var parent := FindElementDefinition(key[..n], schema);
    && parent.Some? && parent.value.typ != "" && parent.value.typ != "group" && parent.value.typ != "nested"
    && parent.value.typ != "object"
  }

  lemma BelowFieldExactly(key: string, schema: seq<FieldDefinition>)
    ensures CouldBeMultifield(key, schema) <==> BelowField(key, schema)
  {
    if CouldBeMultifield(key, schema) {
      assert BelowFieldAt(key, schema, |Parent(key).value|);
    }
    if n :| BelowFieldAt(key, schema, n) {
      LastDotIs(key, n);
    }
  }

  lemma {:induction false} LastDotIs(key: string, n: nat)
    requires n < |key| && key[n] == '.' && '.' !in key[n + 1..]
    ensures Parent(key) == Some(key[..n])
  {
    forall i | n < i < |key| ensures key[i] != '.' {
      assert key[n + 1..][i - n - 1] == key[i];
    }
    ParentIs(key, key[..n]);
  }

  /** A kept key that is a prefix of the warning's key has a value of the kind that the warning names. */
  ghost predicate Concerns(w: Warning, doc: Fields) {
    exists p :: Blocks(doc, p, w.key) && IsOfKind(doc[p], w.kind)
  }

  predicate Blocks(doc: Fields, p: string, k: string) {
    p in doc && Kept(doc, p) && ProperPrefix(p, k)
  }

  lemma NothingExpanded(doc: Fields)
    ensures Expands(map[], doc, {})
  {
  }

  /** When a key's turn comes, its prefixes have had theirs and no key it prefixes has. */
  lemma PrefixesAreDone(doc: Fields, keys: seq<string>, i: nat, done: set<string>)
    requires Sorted(keys) && (forall k :: k in keys <==> k in doc) && i < |keys|
    requires done == set j | 0 <= j < i :: keys[j]
    ensures Turn(doc, done, keys[i])
  {
    var k := keys[i];
    BeforeIrreflexive(k, k);
    forall p | p in doc && ProperPrefix(p, k) ensures p in done {
      PrefixSortsFirst(p, k);
      var j :| 0 <= j < |keys| && keys[j] == p;
      BeforeIrreflexive(p, k);
    }
    forall q | q in done ensures !ProperPrefix(k, q) {
      var j :| 0 <= j < i && keys[j] == q;
      BeforeIrreflexive(q, k);
      if ProperPrefix(k, q) {
        PrefixSortsFirst(k, q);
      }
    }
  }

  // ----- Nested maps without dotted keys

  lemma PrefixBelow(p: string, k: string)
    requires ProperPrefix(p, k)
    ensures HasDot(k)
    ensures !HasDot(p) ==> p == Base(k)
    ensures HasDot(p) ==> Base(p) == Base(k) && ProperPrefix(Rest(p), Rest(k))
  {
    var i := FirstDot(k);
    assert k[|p|] == '.';
    FirstDotOfPrefix(p, k);
    if HasDot(p) {
      CutRebuilds(p);
      CutRebuilds(k);
      assert Rest(k)[..|Rest(p)|] == k[i + 1..|p|] == Rest(p);
    }
  }

  lemma {:induction false} FirstDotOfPrefix(p: string, k: string)
    requires |p| < |k| && k[..|p|] == p && k[|p|] == '.'
    ensures FirstDot(k) == FirstDot(p)
  {
    assert forall j :: 0 <= j < |p| ==> k[j] == p[j];
  }

  lemma {:induction false} NothingBelowValue(m: Fields, p: string, k: string)
    requires Nested(m) && Get(m, p).Ok? && !Get(m, p).value.Object? && ProperPrefix(p, k)
    ensures Get(m, k) == Err(NotAMap)
    decreases |p|
  {
    PrefixBelow(p, k);
    if p !in m {
      NothingBelowValue(m[Base(p)].fields, Rest(p), Rest(k));
    }
  }

  /** Below a value that is not an object nothing can be put and nothing is found. */
  lemma {:induction false} BlockedBelowValue(m: Fields, p: string, k: string, w: Json)
    requires Nested(m) && Get(m, p).Ok? && !Get(m, p).value.Object? && ProperPrefix(p, k)
    ensures Put(m, k, w) == Err(NotAMap) && Get(m, k) == Err(NotAMap)
  {
    NothingBelowValue(m, p, k);
    PutFails(m, k, w);
  }

  /** A Put that fails has a value that is not an object in its way. */
  lemma {:induction false} BlockedByValue(m: Fields, k: string, w: Json) returns (p: string)
    requires Nested(m) && Put(m, k, w).Err?
    ensures ProperPrefix(p, k) && Get(m, p).Ok? && !Get(m, p).value.Object? && Get(m, p).value == InTheWay(m, k)
    decreases |k|
  {
    CutRebuilds(k);
    if Base(k) !in m {
      PutInEmpty(Rest(k), w);
    }
    if m[Base(k)].Object? {
      var q := BlockedByValue(m[Base(k)].fields, Rest(k), w);
      BlockedInside(m, k, q);
      p := Base(k) + "." + q;
    } else {
      p := Base(k);
    }
  }

  lemma {:induction false} BlockedInside(m: Fields, k: string, q: string)
    requires Nested(m) && k !in m && HasDot(k) && Base(k) in m && m[Base(k)].Object?
    requires ProperPrefix(q, Rest(k)) && Get(m[Base(k)].fields, q).Ok?
    ensures var p := Base(k) + "." + q;
            && ProperPrefix(p, k) && Get(m, p) == Get(m[Base(k)].fields, q)
            && InTheWay(m, k) == InTheWay(m[Base(k)].fields, Rest(k))
  {
    CutRebuilds(k);
    Rejoin(Base(k), q);
  }

  lemma Rejoin(base: string, rest: string)
    requires !HasDot(base)
    ensures var k := base + "." + rest; HasDot(k) && Base(k) == base && Rest(k) == rest
  {
    FirstDotOfPrefix(base, base + "." + rest);
  }

  lemma {:induction false} PutKeepsNested(m: Fields, k: string, v: Json)
    requires Nested(m) && !v.Object? && Put(m, k, v).Ok?
    ensures Nested(Put(m, k, v).value)
    decreases |k|
  {
    if k !in m && HasDot(k) {
      PutBelow(m, k, v);
      PutKeepsNested(Below(m, Base(k)), Rest(k), v);
    }
  }

  /** After a Put there are objects at all proper prefixes of its key. */
  lemma {:induction false} PutMakesObjects(m: Fields, k: string, v: Json, q: string)
    requires Nested(m) && Put(m, k, v).Ok? && ProperPrefix(q, k)
    ensures Get(Put(m, k, v).value, q).Ok? && Get(Put(m, k, v).value, q).value.Object?
    decreases |k|
  {
    PrefixBelow(q, k);
    PutBelow(m, k, v);
    if HasDot(q) {
      PutMakesObjects(Below(m, Base(k)), Rest(k), v, Rest(q));
    }
  }

  // ----- One key

  lemma {:induction false} KeptPrefix(doc: Fields, k: string) returns (p: string)
    requires !Kept(doc, k)
    ensures p in doc && ProperPrefix(p, k) && Kept(doc, p)
    decreases |k|
  {
    p :| p in doc && ProperPrefix(p, k);
    if !Kept(doc, p) {
      var q := KeptPrefix(doc, p);
      p := q;
    }
  }

  lemma {:induction false} ExpandStep(r: Fields, doc: Fields, done: set<string>, k: string)
    requires Flat(doc) && Expands(r, doc, done) && Turn(doc, done, k)
    ensures Put(r, k, doc[k]).Ok? <==> Kept(doc, k)
    ensures Expands(if Kept(doc, k) then Put(r, k, doc[k]).value else r, doc, done + {k})
  {
    PutIfKept(r, doc, done, k);
    if Kept(doc, k) {
      ExpandKept(r, doc, done, k);
    } else {
      SkippedStays(r, doc, done, k);
    }
  }

  /** The prefixes of the key have had their turn, and no key that it prefixes has. */
  predicate Turn(doc: Fields, done: set<string>, k: string) {
    && k in doc && k !in done
    && (forall p | p in doc && ProperPrefix(p, k) :: p in done)
    && (forall q | q in done :: !ProperPrefix(k, q))
  }

  lemma {:induction false} PutIfKept(r: Fields, doc: Fields, done: set<string>, k: string)
    requires Flat(doc) && Expands(r, doc, done) && Turn(doc, done, k)
    ensures Put(r, k, doc[k]).Ok? <==> Kept(doc, k)
  {
    if Put(r, k, doc[k]).Err? {
      BlockedIsNotKept(r, doc, done, k);
    }
    if !Kept(doc, k) {
      var p := KeptPrefix(doc, k);
      assert FoundAsKept(r, doc, done, p, doc[p]);
      BlockedBelowValue(r, p, k, doc[k]);
    }
  }

  lemma PrefixesInLine(p: string, q: string, k: string)
    requires ProperPrefix(p, k) && ProperPrefix(q, k)
    ensures p == q || ProperPrefix(p, q) || ProperPrefix(q, p)
  {
    if |p| < |q| {
      assert q[..|p|] == p && q[|p|] == k[|p|];
    } else if |q| < |p| {
      assert p[..|q|] == q && p[|q|] == k[|q|];
    }
  }

  /** There is one kept prefix of a key, and its value is what is in the way. */
  lemma OneBlocks(doc: Fields, p: string, q: string, k: string)
    requires Blocks(doc, p, k) && Blocks(doc, q, k)
    ensures p == q
  {
    PrefixesInLine(p, q, k);
  }

  lemma {:induction false} WarningIs(r: Fields, doc: Fields, done: set<string>, k: string, kind: Kind)
    requires Flat(doc) && Expands(r, doc, done) && k in doc && Put(r, k, doc[k]).Err?
    ensures Concerns(Warning(k, kind), doc) <==> kind == KindOf(InTheWay(r, k))
  {
    var p := BlockedByValue(r, k, doc[k]);
    assert FoundAsKept(r, doc, done, p, Get(r, p).value);
    assert Blocks(doc, p, k);
    KindIs(doc[p], kind);
    if Concerns(Warning(k, kind), doc) {
      var q :| Blocks(doc, q, k) && IsOfKind(doc[q], kind);
      OneBlocks(doc, p, q, k);
    }
  }

  /** The warnings about a key: none if it is put, else the one that names what is in the way. */
  lemma {:induction false} ReportStep(r: Fields, doc: Fields, done: set<string>, k: string)
    requires Flat(doc) && Expands(r, doc, done) && Turn(doc, done, k)
    ensures forall w: Warning | w.key == k ::
              Concerns(w, doc) <==> Put(r, k, doc[k]).Err? && w == Warning(k, KindOf(InTheWay(r, k)))
  {
    PutIfKept(r, doc, done, k);
    forall w: Warning | w.key == k
      ensures Concerns(w, doc) <==> Put(r, k, doc[k]).Err? && w == Warning(k, KindOf(InTheWay(r, k)))
    {
      if Put(r, k, doc[k]).Err? {
        WarningIs(r, doc, done, k, w.kind);
      }
    }
  }

  lemma SkippedStays(r: Fields, doc: Fields, done: set<string>, k: string)
    requires Expands(r, doc, done) && !Kept(doc, k)
    ensures Expands(r, doc, done + {k})
  {
    forall q: string, v: Json | !v.Object? ensures FoundAsKept(r, doc, done + {k}, q, v) {
      assert FoundAsKept(r, doc, done, q, v);
    }
    forall q: string ensures ObjectAt(r, q) <==> Needed(doc, done + {k}, q) {
      assert forall o :: NeededFor(doc, done + {k}, q, o) <==> NeededFor(doc, done, q, o);
    }
  }

  lemma {:induction false} BlockedIsNotKept(r: Fields, doc: Fields, done: set<string>, k: string)
    requires Expands(r, doc, done) && k in doc && Put(r, k, doc[k]).Err?
    ensures !Kept(doc, k)
  {
    var p := BlockedByValue(r, k, doc[k]);
    assert FoundAsKept(r, doc, done, p, Get(r, p).value);
  }

  lemma {:induction false} ExpandKept(r: Fields, doc: Fields, done: set<string>, k: string)
    requires Flat(doc) && Expands(r, doc, done) && k in doc && k !in done && Kept(doc, k)
    requires Put(r, k, doc[k]).Ok?
    requires forall q | q in done :: !ProperPrefix(k, q)
    ensures Expands(Put(r, k, doc[k]).value, doc, done + {k})
  {
    var v := doc[k];
    var r' := Put(r, k, v).value;
    PutKeepsNested(r, k, v);
    forall q: string, w: Json | !w.Object?
      ensures FoundAsKept(r', doc, done + {k}, q, w)
    {
      assert FoundAsKept(r, doc, done, q, w);
      ExpandKeptAt(r, doc, done, k, q, w);
    }
    forall q: string ensures ObjectAt(r', q) <==> Needed(doc, done + {k}, q) {
      ObjectsNeeded(r, doc, done, k, q);
    }
  }

  lemma {:induction false} ObjectsNeeded(r: Fields, doc: Fields, done: set<string>, k: string, q: string)
    requires Flat(doc) && k in doc && k !in done && Kept(doc, k) && (ObjectAt(r, q) <==> Needed(doc, done, q))
    requires Nested(r) && Put(r, k, doc[k]).Ok? && Nested(Put(r, k, doc[k]).value)
    ensures ObjectAt(Put(r, k, doc[k]).value, q) <==> Needed(doc, done + {k}, q)
  {
    var v := doc[k];
    var r' := Put(r, k, v).value;
    PutThenGet(r, k, v);
    assert forall o | o != k :: NeededFor(doc, done + {k}, q, o) <==> NeededFor(doc, done, q, o);
    if ProperPrefix(q, k) {
      PutMakesObjects(r, k, v, q);
      assert NeededFor(doc, done + {k}, q, k);
    } else if q == k {
      assert forall o :: !NeededFor(doc, done + {k}, q, o);
    } else if ProperPrefix(k, q) {
      BlockedBelowValue(r', k, q, v);
      forall o ensures !NeededFor(doc, done + {k}, q, o) {
        PrefixOfPrefix(k, q, o);
      }
    } else {
      PutFrame(r, k, v, q);
    }
  }

  lemma PrefixOfPrefix(p: string, q: string, k: string)
    requires ProperPrefix(p, q)
    ensures ProperPrefix(q, k) ==> ProperPrefix(p, k)
  {
    if ProperPrefix(q, k) {
      assert k[..|p|] == q[..|p|] && k[|p|] == q[|p|];
    }
  }

  // ----- The result is the only one

  /** The same is found under the key, as far as values go, and objects are found at the same keys. */
  ghost predicate SameFinding(a: Fields, b: Fields, q: string) {
    && (ObjectAt(a, q) <==> ObjectAt(b, q))
    && forall v: Json | !v.Object? :: Get(a, q) == Ok(v) <==> Get(b, q) == Ok(v)
  }

  /** No other map without dotted names has these values at these keys, and objects only where they are needed. */
  lemma ExpansionIsUnique(a: Fields, b: Fields, doc: Fields, done: set<string>)
    requires Expands(a, doc, done) && Expands(b, doc, done)
    ensures a == b
  {
    forall q ensures SameFinding(a, b, q) {
      forall v: Json | !v.Object? ensures Get(a, q) == Ok(v) <==> Get(b, q) == Ok(v) {
        assert FoundAsKept(a, doc, done, q, v) && FoundAsKept(b, doc, done, q, v);
      }
    }
    SameFindingsSameMap(a, b);
  }

  lemma {:induction false} SameFindingsSameMap(a: Fields, b: Fields)
    requires Nested(a) && Nested(b) && forall q :: SameFinding(a, b, q)
    ensures a == b
    decreases Object(a)
  {
    forall k | k in a.Keys + b.Keys ensures k in a && k in b && a[k] == b[k] {
      assert SameFinding(a, b, k);
      FoundByName(a, k);
      FoundByName(b, k);
      if k in a && a[k].Object? {
        forall q ensures SameFinding(a[k].fields, b[k].fields, q) {
          assert SameFinding(a, b, k + "." + q);
          FoundBelow(a, k, q);
          FoundBelow(b, k, q);
        }
        SameFindingsSameMap(a[k].fields, b[k].fields);
      }
    }
  }

  lemma {:induction false} FoundByName(m: Fields, k: string)
    requires !HasDot(k)
    ensures Get(m, k) == if k in m then Ok(m[k]) else Err(KeyNotFound)
  {
  }

  lemma {:induction false} FoundBelow(m: Fields, k: string, q: string)
    requires Nested(m) && k in m && m[k].Object?
    ensures Get(m, k + "." + q) == Get(m[k].fields, q)
  {
    Rejoin(k, q);
    assert k + "." + q !in m;
  }

  lemma {:induction false} ExpandKeptAt(r: Fields, doc: Fields, done: set<string>, k: string, q: string, w: Json)
    requires Flat(doc) && k in doc && k !in done && Kept(doc, k) && !w.Object?
    requires Nested(r) && FoundAsKept(r, doc, done, q, w)
    requires Put(r, k, doc[k]).Ok? && Nested(Put(r, k, doc[k]).value)
    requires q in done ==> !ProperPrefix(k, q)
    ensures FoundAsKept(Put(r, k, doc[k]).value, doc, done + {k}, q, w)
  {
    var v := doc[k];
    var r' := Put(r, k, v).value;
    PutThenGet(r, k, v);
    if ProperPrefix(q, k) {
      PutMakesObjects(r, k, v, q);
      if Get(r, q) == Ok(w) {
        BlockedBelowValue(r, q, k, v);
      }
    } else if ProperPrefix(k, q) {
      BlockedBelowValue(r', k, q, w);
    } else if q != k {
      PutFrame(r, k, v, q);
    }
  }
}
