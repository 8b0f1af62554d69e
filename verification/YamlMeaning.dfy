/** What a YAML tree with dotted keys means, and that expanding the keys keeps it. */
module YamlMeaning {
  import opened DottedKeys
  import opened Options
  import opened YamlTree

  datatype Step = Key(name: string) | Item(index: nat)

  /** What is found at a path: a group of further keys, or anything else with all its details. */
  datatype Label = Group | Other(kind: Kind, style: nat, value: string, arity: nat)

  function LabelOf(t: Node): Label {
    if t.kind.Mapping? then Group else Other(t.kind, t.style, t.value, |t.content|)
  }

  /** The segments a key stands for: a quoted key is one segment, dots included. */
  function KeySegments(key: Node): (segs: seq<string>)
    ensures segs != []
  {
    if key.style == 0 then Segments(key.value) else [key.value]
  }

  /** How often `t` has something labelled `l` at path `p`, reading a dotted key as the groups it abbreviates. */
  function Count(t: Node, p: seq<Step>, l: Label): nat
    decreases t, 1, 0
  {
    if p == [] then if LabelOf(t) == l then 1 else 0
    else if t.kind.Mapping? then CountPairs(t.content, p, l)
    else if p[0].Item? && p[0].index < |t.content| then Count(t.content[p[0].index], p[1..], l)
    else 0
  }

  function CountPairs(c: seq<Node>, p: seq<Step>, l: Label): nat
    decreases c, 0, 0
  {
    if |c| < 2 || p == [] then 0
    else CountKeyed(KeySegments(c[0]), c[1], p, l) + CountPairs(c[2..], p, l)
  }

  function CountKeyed(segs: seq<string>, v: Node, p: seq<Step>, l: Label): nat
    decreases v, 2, |segs|
  {
    if segs == [] then Count(v, p, l)
    else if p == [] then if l == Group then 1 else 0
    else if p[0] == Key(segs[0]) then CountKeyed(segs[1..], v, p[1..], l)
    else 0
  }

  /** Keys are scalars and come with values. */
  predicate ScalarKeys(c: seq<Node>) {
    |c| == 0 || (|c| >= 2 && c[0].kind.Scalar? && c[0].content == [] && ScalarKeys(c[2..]))
  }

  /** A tree as the parser yields it, with scalars for keys. */
  ghost predicate WellFormed(t: Node) {
    && (t.kind.Mapping? ==> ScalarKeys(t.content))
    && (t.kind.Scalar? || t.kind.Alias? ==> t.content == [])
    && forall c | c in t.content :: WellFormed(c)
  }

  ghost predicate AllWellFormed(c: seq<Node>) {
    forall n | n in c :: WellFormed(n)
  }

  /** Two counts agree: exactly for what is not a group, in being positive for a group. */
  predicate SameAt(a: nat, b: nat, l: Label) {
    if l == Group then a > 0 <==> b > 0 else a == b
  }

  /** `t` and `u` mean the same: the same groups, and the same other contents as often at every path. */
  ghost predicate Same(t: Node, u: Node) {
    forall p, l :: SameAt(Count(t, p, l), Count(u, p, l), l)
  }

  /** At most one thing is found at each path, unless everything found there is a group. */
  ghost predicate ConflictFree(t: Node) {
    && (forall p, l :: l != Group ==> Count(t, p, l) <= 1)
    && (forall p, l, l' :: Count(t, p, l) > 0 && Count(t, p, l') > 0 ==> l == l')
  }

  function MapOf(c: seq<Node>): Node {
    Node(Mapping, 0, "", c)
  }

  predicate UnsplitKeys(c: seq<Node>) {
    |c| % 2 == 0 &&
    forall i :: 0 <= i < |c| && i % 2 == 0 ==> c[i].kind.Scalar? && c[i].content == [] && !Splits(c[i])
  }

  predicate DistinctKeys(c: seq<Node>) {
    forall i, j :: 0 <= i < j < |c| && i % 2 == 0 && j % 2 == 0 ==> c[i].value != c[j].value
  }

  /** No plain key has a dot left and no mapping has two entries with the same key. */
  ghost predicate Normal(t: Node) {
    && (t.kind.Mapping? ==> UnsplitKeys(t.content) && DistinctKeys(t.content))
    && (t.kind.Scalar? || t.kind.Alias? ==> t.content == [])
    && forall c | c in t.content :: Normal(c)
  }

  // ----- Same and ConflictFree

  lemma SameTransitive(t: Node, u: Node, v: Node)
    requires Same(t, u) && Same(u, v)
    ensures Same(t, v)
  {
    forall p: seq<Step>, l: Label ensures SameAt(Count(t, p, l), Count(v, p, l), l) {
      assert SameAt(Count(t, p, l), Count(u, p, l), l);
      assert SameAt(Count(u, p, l), Count(v, p, l), l);
    }
  }

  lemma SameKeepsConflictFree(t: Node, u: Node)
    requires Same(t, u) && ConflictFree(t)
    ensures ConflictFree(u)
  {
    forall p, l | l != Group ensures Count(u, p, l) <= 1 {
      assert SameAt(Count(t, p, l), Count(u, p, l), l);
    }
    forall p, l, l' | Count(u, p, l) > 0 && Count(u, p, l') > 0 ensures l == l' {
      assert SameAt(Count(t, p, l), Count(u, p, l), l);
      assert SameAt(Count(t, p, l'), Count(u, p, l'), l');
    }
  }

  // ----- Counting through sequences of pairs

  lemma {:induction false} CountPairsConcat(a: seq<Node>, b: seq<Node>, p: seq<Step>, l: Label)
    requires |a| % 2 == 0
    ensures CountPairs(a + b, p, l) == CountPairs(a, p, l) + CountPairs(b, p, l)
    decreases |a|
  {
    if a == [] {
      assert a + b == b;
    } else {
      assert (a + b)[2..] == a[2..] + b;
      CountPairsConcat(a[2..], b, p, l);
    }
  }

  lemma {:induction false} CountPairsUpdate(c: seq<Node>, i: nat, n: Node, p: seq<Step>, l: Label)
    requires |c| % 2 == 0 && i % 2 == 0 && i < |c| && p != []
    ensures CountPairs(c[i + 1 := n], p, l) + CountKeyed(KeySegments(c[i]), c[i + 1], p, l)
         == CountPairs(c, p, l) + CountKeyed(KeySegments(c[i]), n, p, l)
    decreases |c|
  {
    var d := c[i + 1 := n];
    if i == 0 {
      assert d[2..] == c[2..];
    } else {
      assert d[2..] == c[2..][i - 1 := n];
      CountPairsUpdate(c[2..], i - 2, n, p, l);
    }
  }

  lemma {:induction false} CountOnePair(key: Node, v: Node, p: seq<Step>, l: Label)
    requires p != []
    ensures CountPairs([key, v], p, l) == CountKeyed(KeySegments(key), v, p, l)
  {
    assert [key, v][2..] == [];
  }

  /** Splitting a key adds and removes nothing. */
  lemma {:induction false} SplitKeepsCount(parent: Node, key: Node, v: Node, p: seq<Step>, l: Label)
    requires parent.kind.Mapping? && p != []
    ensures CountKeyed(KeySegments(key), v, p, l)
         == CountKeyed(KeySegments(OuterKey(key)), OuterValue(parent, key, v), p, l)
  {
    if Splits(key) && p[0] == Key(Base(key.value)) {
      var inner := key.(value := Rest(key.value));
      var v' := OuterValue(parent, key, v);
      assert KeySegments(key) == [Base(key.value)] + KeySegments(inner);
      assert KeySegments(OuterKey(key)) == [Base(key.value)];
      assert CountKeyed(KeySegments(OuterKey(key)), v', p, l) == Count(v', p[1..], l);
      if p[1..] != [] {
        CountOnePair(inner, v, p[1..], l);
      }
    } else if Splits(key) {
      assert KeySegments(OuterKey(key)) == [Base(key.value)];
    }
  }

  lemma {:induction false} KeyedCongruence(segs: seq<string>, v: Node, v': Node, p: seq<Step>, l: Label)
    requires Same(v, v')
    ensures SameAt(CountKeyed(segs, v, p, l), CountKeyed(segs, v', p, l), l)
    decreases |segs|
  {
    if segs == [] {
      assert SameAt(Count(v, p, l), Count(v', p, l), l);
    } else if p != [] && p[0] == Key(segs[0]) {
      KeyedCongruence(segs[1..], v, v', p[1..], l);
    }
  }

  lemma {:induction false} KeyedReaches(key: Node, v: Node, p: seq<Step>, l: Label)
    requires !Splits(key)
    ensures CountKeyed(KeySegments(key), v, [Key(key.value)] + p, l) == Count(v, p, l)
  {
    assert KeySegments(key) == [key.value];
    assert ([Key(key.value)] + p)[1..] == p;
  }

  // ----- Parts of a conflict-free tree are conflict-free

  lemma ConflictFreePart(t: Node, u: Node, prefix: seq<Step>)
    requires ConflictFree(t)
    requires forall p, l :: Count(u, p, l) <= Count(t, prefix + p, l)
    ensures ConflictFree(u)
  {
    forall p, l | l != Group ensures Count(u, p, l) <= 1 {
      assert Count(u, p, l) <= Count(t, prefix + p, l);
    }
    forall p, l, l' | Count(u, p, l) > 0 && Count(u, p, l') > 0 ensures l == l' {
      assert Count(u, p, l) <= Count(t, prefix + p, l) && Count(u, p, l') <= Count(t, prefix + p, l');
    }
  }

  lemma ConflictFreeTail(c: seq<Node>)
    requires |c| >= 2 && ConflictFree(MapOf(c))
    ensures ConflictFree(MapOf(c[2..]))
  {
    forall p: seq<Step>, l: Label ensures Count(MapOf(c[2..]), p, l) <= Count(MapOf(c), [] + p, l) {
      assert [] + p == p;
    }
    ConflictFreePart(MapOf(c), MapOf(c[2..]), []);
  }

  lemma ConflictFreeValue(parent: Node, c: seq<Node>)
    requires parent.kind.Mapping? && |c| >= 2 && ConflictFree(MapOf(c))
    ensures ConflictFree(OuterValue(parent, c[0], c[1]))
  {
    var key, v := OuterKey(c[0]), OuterValue(parent, c[0], c[1]);
    var prefix := [Key(key.value)];
    forall p: seq<Step>, l: Label ensures Count(v, p, l) <= Count(MapOf(c), prefix + p, l) {
      SplitKeepsCount(parent, c[0], c[1], prefix + p, l);
      KeyedReaches(key, v, p, l);
    }
    ConflictFreePart(MapOf(c), v, prefix);
  }

  lemma ConflictFreeItem(t: Node, i: nat)
    requires ConflictFree(t) && !t.kind.Mapping? && i < |t.content|
    ensures ConflictFree(t.content[i])
  {
    forall p: seq<Step>, l: Label ensures Count(t.content[i], p, l) <= Count(t, [Item(i)] + p, l) {
      assert ([Item(i)] + p)[1..] == p;
    }
    ConflictFreePart(t, t.content[i], [Item(i)]);
  }

  lemma {:induction false} ConflictFreeEntry(c: seq<Node>, i: nat)
    requires UnsplitKeys(c) && ConflictFree(MapOf(c)) && i < |c| && i % 2 == 0
    ensures ConflictFree(c[i + 1])
    decreases i
  {
    if i == 0 {
      ConflictFreeValue(MapOf([]), c);
    } else {
      ConflictFreeTail(c);
      assert c[2..][i - 2] == c[i] && c[2..][i - 1] == c[i + 1];
      assert UnsplitKeys(c[2..]) by { UnsplitTail(c); }
      ConflictFreeEntry(c[2..], i - 2);
    }
  }

  // ----- Keys

  lemma UnsplitTail(c: seq<Node>)
    requires |c| >= 2 && UnsplitKeys(c)
    ensures UnsplitKeys(c[2..])
  {
    forall i | 0 <= i < |c[2..]| && i % 2 == 0
      ensures c[2..][i].kind.Scalar? && c[2..][i].content == [] && !Splits(c[2..][i])
    {
      assert c[2..][i] == c[i + 2];
    }
  }

  lemma {:induction false} UnsplitAreScalars(c: seq<Node>)
    requires UnsplitKeys(c)
    ensures ScalarKeys(c)
    decreases |c|
  {
    if c != [] {
      UnsplitTail(c);
      UnsplitAreScalars(c[2..]);
    }
  }

  lemma {:induction false} ScalarsArePaired(c: seq<Node>)
    requires ScalarKeys(c)
    ensures Paired(c)
    decreases |c|
  {
    if c != [] {
      ScalarsArePaired(c[2..]);
    }
  }

  lemma UnsplitCons(key: Node, v: Node, c: seq<Node>)
    requires key.kind.Scalar? && key.content == [] && !Splits(key) && UnsplitKeys(c)
    ensures UnsplitKeys([key, v] + c)
  {
    var d := [key, v] + c;
    forall i | 0 <= i < |d| && i % 2 == 0
      ensures d[i].kind.Scalar? && d[i].content == [] && !Splits(d[i])
    {
      if i >= 2 {
        assert d[i] == c[i - 2];
      }
    }
  }

  lemma {:induction false} ScalarKeysConcat(a: seq<Node>, b: seq<Node>)
    requires ScalarKeys(a) && ScalarKeys(b)
    ensures ScalarKeys(a + b)
    decreases |a|
  {
    if a == [] {
      assert a + b == b;
    } else {
      assert (a + b)[2..] == a[2..] + b;
      ScalarKeysConcat(a[2..], b);
    }
  }

  // ----- Merging

  /** Where a key is repeated without conflict, both values are mappings. */
  lemma RepeatedAreMappings(kept: seq<Node>, i: nat, key: Node, v: Node, rest: seq<Node>)
    requires UnsplitKeys(kept) && i < |kept| && i % 2 == 0
    requires !Splits(key) && kept[i].value == key.value
    requires ConflictFree(MapOf(kept + ([key, v] + rest)))
    ensures kept[i + 1].kind.Mapping? && v.kind.Mapping?
  {
    var p := [Key(key.value)];
    var all := kept + ([key, v] + rest);
    forall l ensures Count(kept[i + 1], [], l) + Count(v, [], l) <= Count(MapOf(all), p, l) {
      CountPairsConcat(kept, [key, v] + rest, p, l);
      CountPairsConcat([key, v], rest, p, l);
      CountOnePair(key, v, p, l);
      EntryCounts(kept, i, p, l);
      assert p + [] == p;
      KeyedReaches(key, v, [], l);
      KeyedReaches(kept[i], kept[i + 1], [], l);
    }
    var l, l' := LabelOf(kept[i + 1]), LabelOf(v);
    assert Count(kept[i + 1], [], l) == 1 && Count(v, [], l') == 1;
    assert Count(MapOf(all), p, l) > 0 && Count(MapOf(all), p, l') > 0;
    assert l == l' && Count(MapOf(all), p, l) >= 2;
  }

  lemma {:induction false} EntryCounts(c: seq<Node>, i: nat, p: seq<Step>, l: Label)
    requires |c| % 2 == 0 && i < |c| && i % 2 == 0 && p != []
    ensures CountKeyed(KeySegments(c[i]), c[i + 1], p, l) <= CountPairs(c, p, l)
    decreases i
  {
    assert CountPairs(c, p, l) == CountKeyed(KeySegments(c[0]), c[1], p, l) + CountPairs(c[2..], p, l);
    if i > 0 {
      assert c[2..][i - 2] == c[i] && c[2..][i - 1] == c[i + 1];
      EntryCounts(c[2..], i - 2, p, l);
    }
  }

  /** Appending the content of one mapping to another adds up what they hold under their key. */
  lemma {:induction false} MergedCounts(key: Node, first: Node, v: Node, p: seq<Step>, l: Label)
    requires !Splits(key) && first.kind.Mapping? && v.kind.Mapping? && |first.content| % 2 == 0
    ensures var segs := KeySegments(key);
            SameAt(CountKeyed(segs, first, p, l) + CountKeyed(segs, v, p, l),
                   CountKeyed(segs, first.(content := first.content + v.content), p, l), l)
  {
    if p != [] && p[0] == Key(key.value) {
      var q := p[1..];
      assert p == [Key(key.value)] + q;
      KeyedReaches(key, first, q, l);
      KeyedReaches(key, v, q, l);
      KeyedReaches(key, first.(content := first.content + v.content), q, l);
      CountPairsConcat(first.content, v.content, q, l);
    }
  }

  lemma MergeOneSame(kept: seq<Node>, key: Node, v: Node, rest: seq<Node>)
    requires UnsplitKeys(kept) && !Splits(key) && AllWellFormed(kept)
    requires ConflictFree(MapOf(kept + ([key, v] + rest)))
    ensures Same(MapOf(kept + ([key, v] + rest)), MapOf(MergeOne(kept, key, v) + rest))
  {
    var i := FindKey(kept, key.value);
    var a, b := kept + ([key, v] + rest), MergeOne(kept, key, v) + rest;
    if i == |kept| {
      assert a == b;
      SameReflexive(MapOf(a));
    } else {
      RepeatedAreMappings(kept, i, key, v, rest);
      var first := kept[i + 1];
      assert first in kept;
      ScalarKeysAreEven(first.content);
      var merged := first.(content := first.content + v.content);
      forall p: seq<Step>, l: Label ensures SameAt(Count(MapOf(a), p, l), Count(MapOf(b), p, l), l) {
        if p != [] {
          CountPairsConcat(kept, [key, v] + rest, p, l);
          CountPairsConcat([key, v], rest, p, l);
          CountOnePair(key, v, p, l);
          CountPairsConcat(MergeOne(kept, key, v), rest, p, l);
          CountPairsUpdate(kept, i, merged, p, l);
          EntryCounts(kept, i, p, l);
          assert KeySegments(kept[i]) == KeySegments(key);
          MergedCounts(key, first, v, p, l);
        }
      }
    }
  }

  lemma SameReflexive(t: Node)
    ensures Same(t, t)
  {
  }

  lemma {:induction false} ScalarKeysAreEven(c: seq<Node>)
    requires ScalarKeys(c)
    ensures |c| % 2 == 0
    decreases |c|
  {
    if c != [] {
      ScalarKeysAreEven(c[2..]);
    }
  }

  lemma {:induction false} MergeOneKeepsShape(kept: seq<Node>, key: Node, v: Node, rest: seq<Node>)
    requires UnsplitKeys(kept) && DistinctKeys(kept) && AllWellFormed(kept)
    requires key.kind.Scalar? && key.content == [] && !Splits(key) && WellFormed(v)
    requires ConflictFree(MapOf(kept + ([key, v] + rest)))
    ensures UnsplitKeys(MergeOne(kept, key, v)) && DistinctKeys(MergeOne(kept, key, v))
    ensures AllWellFormed(MergeOne(kept, key, v))
  {
    var i := FindKey(kept, key.value);
    var r := MergeOne(kept, key, v);
    if i < |kept| {
      RepeatedAreMappings(kept, i, key, v, rest);
      assert kept[i + 1] in kept;
      ScalarKeysConcat(kept[i + 1].content, v.content);
      var merged := kept[i + 1].(content := kept[i + 1].content + v.content);
      assert WellFormed(kept[i + 1]);
      assert WellFormed(merged);
      forall n | n in r ensures WellFormed(n) {
        var j :| 0 <= j < |r| && r[j] == n;
        assert j == i + 1 || n == kept[j];
      }
    } else {
      assert WellFormed(key);
    }
  }

  lemma {:induction false} MergeFromSame(kept: seq<Node>, c: seq<Node>)
    requires UnsplitKeys(kept) && DistinctKeys(kept) && AllWellFormed(kept)
    requires UnsplitKeys(c) && AllWellFormed(c)
    requires ConflictFree(MapOf(kept + c))
    ensures var r := MergeFrom(kept, c);
            UnsplitKeys(r) && DistinctKeys(r) && AllWellFormed(r) && Same(MapOf(kept + c), MapOf(r))
    decreases |c|
  {
    if c == [] {
      assert kept + c == kept;
      SameReflexive(MapOf(kept));
    } else {
      var next := MergeOne(kept, c[0], c[1]);
      assert c == [c[0], c[1]] + c[2..];
      MergeOneSame(kept, c[0], c[1], c[2..]);
      MergeOneKeepsShape(kept, c[0], c[1], c[2..]);
      UnsplitTail(c);
      SameKeepsConflictFree(MapOf(kept + c), MapOf(next + c[2..]));
      MergeFromSame(next, c[2..]);
      SameTransitive(MapOf(kept + c), MapOf(next + c[2..]), MapOf(MergeFrom(kept, c)));
    }
  }

  // ----- Expanding

  lemma PairSame(parent: Node, c: seq<Node>, v: Node, rest: seq<Node>)
    requires parent.kind.Mapping? && |c| >= 2
    requires Same(OuterValue(parent, c[0], c[1]), v)
    requires Same(MapOf(c[2..]), MapOf(rest))
    ensures Same(MapOf(c), MapOf([OuterKey(c[0]), v] + rest))
  {
    var d := [OuterKey(c[0]), v] + rest;
    forall p: seq<Step>, l: Label ensures SameAt(Count(MapOf(c), p, l), Count(MapOf(d), p, l), l) {
      if p != [] {
        SplitKeepsCount(parent, c[0], c[1], p, l);
        KeyedCongruence(KeySegments(OuterKey(c[0])), OuterValue(parent, c[0], c[1]), v, p, l);
        assert d[2..] == rest;
        assert SameAt(Count(MapOf(c[2..]), p, l), Count(MapOf(rest), p, l), l);
      }
    }
  }

  lemma {:induction false} PairsExpand(parent: Node, c: seq<Node>)
    requires parent.kind.Mapping? && ScalarKeys(c) && AllWellFormed(c) && ConflictFree(MapOf(c))
    ensures Paired(c)
    ensures var r := ExtendPairs(parent, c);
            r.Some? && UnsplitKeys(r.value) && AllWellFormed(r.value) && Same(MapOf(c), MapOf(r.value))
    decreases Weights(c) + 1, 0
  {
    ScalarsArePaired(c);
    if c == [] {
      SameReflexive(MapOf(c));
    } else {
      SplitWeight(parent, c[0], c[1]);
      WeightsPair(c);
      ConflictFreeTail(c);
      ConflictFreeValue(parent, c);
      var v := OuterValue(parent, c[0], c[1]);
      SplitWellFormed(parent, c[0], c[1]);
      Expands(v);
      PairsExpand(parent, c[2..]);
      var v', rest := Extend(v).value, ExtendPairs(parent, c[2..]).value;
      NormalIsWellFormed(v');
      PairSame(parent, c, v', rest);
      UnsplitCons(OuterKey(c[0]), v', rest);
      assert WellFormed(OuterKey(c[0]));
    }
  }

  lemma {:induction false} SplitWellFormed(parent: Node, key: Node, v: Node)
    requires parent.kind.Mapping? && key.kind.Scalar? && key.content == [] && WellFormed(v)
    ensures WellFormed(OuterValue(parent, key, v))
  {
    var inner := key.(value := if Splits(key) then Rest(key.value) else key.value);
    assert WellFormed(inner);
    assert ScalarKeys([inner, v][2..]);
  }

  lemma {:induction false} NormalIsWellFormed(t: Node)
    requires Normal(t)
    ensures WellFormed(t)
  {
    if t.kind.Mapping? {
      UnsplitAreScalars(t.content);
    }
    forall c | c in t.content ensures WellFormed(c) {
      NormalIsWellFormed(c);
    }
  }

  lemma {:induction false} EachExpands(c: seq<Node>)
    requires AllWellFormed(c) && forall n | n in c :: ConflictFree(n)
    ensures var r := ExtendEach(c);
            r.Some? && forall i :: 0 <= i < |c| ==> Normal(r.value[i]) && Same(c[i], r.value[i])
    ensures forall i :: 0 <= i < |c| ==> Extend(c[i]) == Some(ExtendEach(c).value[i])
    decreases Weights(c) + 1, 0
  {
    if c != [] {
      Expands(c[0]);
      EachExpands(c[1..]);
    }
  }

  /** Replacing every entry of a mapping by one that means the same. */
  lemma {:induction false} EntriesSame(c: seq<Node>, d: seq<Node>)
    requires |c| == |d| && |c| % 2 == 0
    requires forall i :: 0 <= i < |c| ==> if i % 2 == 0 then c[i] == d[i] else Same(c[i], d[i])
    ensures Same(MapOf(c), MapOf(d))
    decreases |c|
  {
    if c == [] {
      SameReflexive(MapOf(c));
    } else {
      EntriesSame(c[2..], d[2..]);
      forall p: seq<Step>, l: Label ensures SameAt(Count(MapOf(c), p, l), Count(MapOf(d), p, l), l) {
        KeyedCongruence(KeySegments(c[0]), c[1], d[1], p, l);
        assert SameAt(Count(MapOf(c[2..]), p, l), Count(MapOf(d[2..]), p, l), l);
      }
    }
  }

  lemma ItemsSame(t: Node, u: Node)
    requires !t.kind.Mapping? && u == t.(content := u.content) && |t.content| == |u.content|
    requires forall i :: 0 <= i < |t.content| ==> Same(t.content[i], u.content[i])
    ensures Same(t, u)
  {
    forall p: seq<Step>, l: Label ensures SameAt(Count(t, p, l), Count(u, p, l), l) {
      if p != [] && p[0].Item? && p[0].index < |t.content| {
        var i := p[0].index;
        assert SameAt(Count(t.content[i], p[1..], l), Count(u.content[i], p[1..], l), l);
      }
    }
  }

  lemma MappingSame(t: Node, u: Node)
    requires t.kind.Mapping? && u.kind.Mapping?
    ensures Same(t, u) <==> Same(MapOf(t.content), MapOf(u.content))
    ensures ConflictFree(t) <==> ConflictFree(MapOf(t.content))
  {
    assert forall p, l :: Count(t, p, l) == Count(MapOf(t.content), p, l);
    assert forall p, l :: Count(u, p, l) == Count(MapOf(u.content), p, l);
  }

  lemma {:induction false} LeafExtends(t: Node)
    requires t.kind.Scalar? && t.content == []
    ensures Extend(t) == Some(t) && ConflictFree(t)
  {
    assert ExtendEach([]) == Some([]);
  }

  lemma {:induction false} Expands(t: Node)
    requires WellFormed(t) && ConflictFree(t)
    ensures var r := Extend(t); r.Some? && Normal(r.value) && Same(t, r.value)
    decreases Weight(t), 3
  {
    if t.kind.Mapping? {
      MappingExpands(t);
    } else {
      forall n | n in t.content ensures ConflictFree(n) {
        var i :| 0 <= i < |t.content| && t.content[i] == n;
        ConflictFreeItem(t, i);
      }
      EachExpands(t.content);
      ItemsSame(t, Extend(t).value);
    }
  }

  lemma {:induction false} MappingExpands(t: Node)
    requires t.kind.Mapping? && WellFormed(t) && ConflictFree(t)
    ensures var r := Extend(t); r.Some? && Normal(r.value) && Same(t, r.value)
    decreases Weight(t), 2
  {
    MappingSame(t, t);
    PairsExpand(t, t.content);
    var c := ExtendPairs(t, t.content).value;
    assert [] + c == c;
    SameKeepsConflictFree(MapOf(t.content), MapOf(c));
    MergeFromSame([], c);
    var m := MergeFrom([], c);
    SameKeepsConflictFree(MapOf(c), MapOf(m));
    EntriesExpand(m);
    var r := ExtendEach(m).value;
    SameTransitive(MapOf(t.content), MapOf(c), MapOf(m));
    SameTransitive(MapOf(t.content), MapOf(m), MapOf(r));
    assert ExtendMap(t) == Some(t.(content := m));
    assert Extend(t) == Some(t.(content := r));
    MappingSame(t, Extend(t).value);
  }

  /** The second pass, over the children of a mapping whose equal keys have been merged. */
  lemma {:induction false} EntriesExpand(m: seq<Node>)
    requires UnsplitKeys(m) && DistinctKeys(m) && AllWellFormed(m) && ConflictFree(MapOf(m))
    ensures var r := ExtendEach(m);
            && r.Some? && UnsplitKeys(r.value) && DistinctKeys(r.value)
            && (forall n | n in r.value :: Normal(n)) && Same(MapOf(m), MapOf(r.value))
    decreases Weights(m) + 1, 1
  {
    forall n | n in m ensures ConflictFree(n) {
      var i :| 0 <= i < |m| && m[i] == n;
      if i % 2 == 0 {
        LeafExtends(n);
      } else {
        ConflictFreeEntry(m, i - 1);
      }
    }
    EachExpands(m);
    var r := ExtendEach(m).value;
    forall i | 0 <= i < |m| && i % 2 == 0 ensures r[i] == m[i] {
      LeafExtends(m[i]);
    }
    EntriesSame(m, r);
  }
}
