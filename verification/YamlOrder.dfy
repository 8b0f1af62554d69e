/** Expanding keeps, at every path, the order and the styles in which mappings and keys first appear. */
module YamlOrder {
  import opened Sequences
  import opened DottedKeys
  import opened Options
  import opened YamlTree
  import opened YamlMeaning
  import opened YamlTheorems

  // ----- First appearances

  /** What is written somewhere: a mapping, or the segment of a key, each with its style. */
  datatype Mark = Mapped(style: nat, value: string) | Name(name: string, style: nat)

  /** The style does not tell two appearances apart. */
  function Id(m: Mark): Option<string> {
    match m
    case Mapped(_, _) => None
    case Name(name, _) => Some(name)
  }

  function Ids(s: seq<Mark>): set<Option<string>> {
    set m | m in s :: Id(m)
  }

  lemma IdsCons(m: Mark, s: seq<Mark>)
    ensures Ids([m] + s) == {Id(m)} + Ids(s)
  {
    assert m in [m] + s && forall x | x in s :: x in [m] + s;
  }

  /** The marks of `s` that are not in `seen`, each as it appears first, in the order in which they do. */
  function FirstSeen(s: seq<Mark>, seen: set<Option<string>>): seq<Mark>
    decreases |s|
  {
    if s == [] then []
    else if Id(s[0]) in seen then FirstSeen(s[1..], seen)
    else [s[0]] + FirstSeen(s[1..], seen + {Id(s[0])})
  }

  lemma {:induction false} FirstSeenConcat(a: seq<Mark>, b: seq<Mark>, seen: set<Option<string>>)
    ensures FirstSeen(a + b, seen) == FirstSeen(a, seen) + FirstSeen(b, seen + Ids(a))
    decreases |a|
  {
    if a == [] {
      assert a + b == b && seen + Ids(a) == seen;
    } else {
      HeadAndTail(a, b);
      assert a == [a[0]] + a[1..];
      IdsCons(a[0], a[1..]);
      if Id(a[0]) in seen {
        FirstSeenConcat(a[1..], b, seen);
        assert seen + Ids(a) == seen + Ids(a[1..]);
      } else {
        FirstSeenConcat(a[1..], b, seen + {Id(a[0])});
        assert seen + Ids(a) == seen + {Id(a[0])} + Ids(a[1..]);
      }
    }
  }

  lemma {:induction false} FirstSeenTwice(a: seq<Mark>, seen: set<Option<string>>, more: set<Option<string>>)
    ensures FirstSeen(FirstSeen(a, seen), more) == FirstSeen(a, seen + more)
    decreases |a|
  {
    if a != [] {
      var x := Id(a[0]);
      if x in seen {
        FirstSeenTwice(a[1..], seen, more);
      } else {
        var rest := FirstSeen(a[1..], seen + {x});
        assert ([a[0]] + rest)[1..] == rest;
        if x in more {
          FirstSeenTwice(a[1..], seen + {x}, more);
          assert seen + {x} + more == seen + more;
        } else {
          FirstSeenTwice(a[1..], seen + {x}, more + {x});
          assert seen + {x} + (more + {x}) == seen + more + {x};
        }
      }
    }
  }

  lemma {:induction false} FirstSeenIds(a: seq<Mark>, seen: set<Option<string>>)
    ensures Ids(FirstSeen(a, seen)) == Ids(a) - seen
    decreases |a|
  {
    if a != [] {
      assert a == [a[0]] + a[1..];
      IdsCons(a[0], a[1..]);
      if Id(a[0]) in seen {
        FirstSeenIds(a[1..], seen);
      } else {
        FirstSeenIds(a[1..], seen + {Id(a[0])});
        IdsCons(a[0], FirstSeen(a[1..], seen + {Id(a[0])}));
      }
    }
  }

  /** The same first appears in the same order and in the same styles. */
  predicate SameOrder(a: seq<Mark>, b: seq<Mark>) {
    FirstSeen(a, {}) == FirstSeen(b, {})
  }

  lemma SameOrderConcat(a: seq<Mark>, a': seq<Mark>, b: seq<Mark>, b': seq<Mark>)
    requires SameOrder(a, a') && SameOrder(b, b')
    ensures SameOrder(a + b, a' + b')
  {
    FirstSeenConcat(a, b, {});
    FirstSeenConcat(a', b', {});
    FirstSeenIds(a, {});
    FirstSeenIds(a', {});
    FirstSeenTwice(b, {}, Ids(a));
    FirstSeenTwice(b', {}, Ids(a));
    assert {} + Ids(a) == Ids(a) == Ids(a');
  }

  /** What has appeared before adds nothing. */
  lemma SeenBefore(a: seq<Mark>, m: Mark, b: seq<Mark>)
    requires Id(m) in Ids(a)
    ensures SameOrder(a + ([m] + b), a + b)
  {
    FirstSeenConcat(a, [m] + b, {});
    FirstSeenConcat(a, b, {});
    assert ([m] + b)[1..] == b;
  }

  // ----- The keys of a tree

  function MarkOf(t: Node): Mark {
    Mapped(t.style, t.value)
  }

  /**
   * What is written at path `p`, in order and with repetitions: mappings, and the segments of their keys. A dotted
   * key is read as the mappings it abbreviates, written like the one that holds it.
   */
  function KeysAt(t: Node, p: seq<Step>): seq<Mark>
    decreases t, 1, 0
  {
    if t.kind.Mapping? then (if p == [] then [MarkOf(t)] else []) + PairKeys(MarkOf(t), t.content, p)
    else if p != [] && p[0].Item? && p[0].index < |t.content| then KeysAt(t.content[p[0].index], p[1..])
    else []
  }

  /** The same for the pairs of a mapping that is written as `made`. */
  function PairKeys(made: Mark, c: seq<Node>, p: seq<Step>): seq<Mark>
    decreases c, 0, 0
  {
    if |c| < 2 then [] else KeyedKeys(made, c[0].style, KeySegments(c[0]), c[1], p) + PairKeys(made, c[2..], p)
  }

  function KeyedKeys(made: Mark, style: nat, segs: seq<string>, v: Node, p: seq<Step>): seq<Mark>
    requires segs != []
    decreases v, 2, |segs|
  {
    if p == [] then [Name(segs[0], style)]
    else if p[0] != Key(segs[0]) then []
    else if |segs| == 1 then KeysAt(v, p[1..])
    else (if p[1..] == [] then [made] else []) + KeyedKeys(made, style, segs[1..], v, p[1..])
  }

  ghost predicate OrderKept(t: Node, u: Node) {
    forall p :: SameOrder(KeysAt(t, p), KeysAt(u, p))
  }

  /** The same for the pairs of a mapping. */
  ghost predicate PairsKept(made: Mark, c: seq<Node>, d: seq<Node>) {
    forall p :: SameOrder(PairKeys(made, c, p), PairKeys(made, d, p))
  }

  lemma PairsKeptTransitive(made: Mark, c: seq<Node>, d: seq<Node>, e: seq<Node>)
    requires PairsKept(made, c, d) && PairsKept(made, d, e)
    ensures PairsKept(made, c, e)
  {
    forall p: seq<Step> ensures SameOrder(PairKeys(made, c, p), PairKeys(made, e, p)) {
      assert SameOrder(PairKeys(made, c, p), PairKeys(made, d, p));
      assert SameOrder(PairKeys(made, d, p), PairKeys(made, e, p));
    }
  }

  lemma {:induction false} PairKeysConcat(made: Mark, a: seq<Node>, b: seq<Node>, p: seq<Step>)
    requires |a| % 2 == 0
    ensures PairKeys(made, a + b, p) == PairKeys(made, a, p) + PairKeys(made, b, p)
    decreases |a|
  {
    if a == [] {
      assert a + b == b;
    } else {
      assert (a + b)[0] == a[0] && (a + b)[1] == a[1] && (a + b)[2..] == a[2..] + b;
      PairKeysConcat(made, a[2..], b, p);
      Associates(KeyedKeys(made, a[0].style, KeySegments(a[0]), a[1], p), PairKeys(made, a[2..], p),
                 PairKeys(made, b, p));
    }
  }

  lemma {:induction false} OnePairKeys(made: Mark, key: Node, v: Node, p: seq<Step>)
    ensures PairKeys(made, [key, v], p) == KeyedKeys(made, key.style, KeySegments(key), v, p)
  {
    assert [key, v][2..] == [];
  }

  /** Splitting a key keeps what is written: its segments are plain, and the mapping made is like `parent`. */
  lemma {:induction false} SplitKeepsKeys(parent: Node, key: Node, v: Node, p: seq<Step>)
    requires parent.kind.Mapping?
    ensures KeyedKeys(MarkOf(parent), key.style, KeySegments(key), v, p)
         == KeyedKeys(MarkOf(parent), OuterKey(key).style, KeySegments(OuterKey(key)), OuterValue(parent, key, v), p)
  {
    if Splits(key) {
      var inner := key.(value := Rest(key.value));
      assert KeySegments(key) == [Base(key.value)] + KeySegments(inner);
      assert KeySegments(key)[1..] == KeySegments(inner);
      assert KeySegments(OuterKey(key)) == [Base(key.value)];
      if p != [] && p[0] == Key(Base(key.value)) {
        OnePairKeys(MarkOf(parent), inner, v, p[1..]);
      }
    }
  }

  lemma {:induction false} KeyedOrder(made: Mark, style: nat, segs: seq<string>, v: Node, v': Node, p: seq<Step>)
    requires segs != [] && OrderKept(v, v')
    ensures SameOrder(KeyedKeys(made, style, segs, v, p), KeyedKeys(made, style, segs, v', p))
    decreases |segs|
  {
    if p != [] && p[0] == Key(segs[0]) {
      if |segs| == 1 {
        assert SameOrder(KeysAt(v, p[1..]), KeysAt(v', p[1..]));
      } else {
        KeyedOrder(made, style, segs[1..], v, v', p[1..]);
        var first := if p[1..] == [] then [made] else [];
        SameOrderConcat(first, first, KeyedKeys(made, style, segs[1..], v, p[1..]),
                        KeyedKeys(made, style, segs[1..], v', p[1..]));
      }
    }
  }

  lemma {:induction false} UnsplitKeyed(made: Mark, key: Node, v: Node, p: seq<Step>)
    requires !Splits(key)
    ensures KeyedKeys(made, key.style, KeySegments(key), v, p) == EntryKeys(key, v, p)
  {
    assert KeySegments(key) == [key.value];
  }

  /** What the first entry contributes when its key does not split. */
  function EntryKeys(key: Node, v: Node, p: seq<Step>): seq<Mark> {
    if p == [] then [Name(key.value, key.style)] else if p[0] == Key(key.value) then KeysAt(v, p[1..]) else []
  }

  lemma {:induction false} UnsplitUnfolds(made: Mark, c: seq<Node>, p: seq<Step>)
    requires UnsplitKeys(c) && c != []
    ensures UnsplitKeys(c[2..]) && PairKeys(made, c, p) == EntryKeys(c[0], c[1], p) + PairKeys(made, c[2..], p)
  {
    UnsplitTail(c);
    UnsplitKeyed(made, c[0], c[1], p);
  }

  /** Where no key splits nothing is made. */
  lemma {:induction false} NothingMade(made: Mark, other: Mark, c: seq<Node>, p: seq<Step>)
    requires UnsplitKeys(c) || p == []
    ensures PairKeys(made, c, p) == PairKeys(other, c, p)
    decreases |c|
  {
    if |c| >= 2 {
      if p != [] {
        UnsplitTail(c);
        UnsplitKeyed(made, c[0], c[1], p);
        UnsplitKeyed(other, c[0], c[1], p);
      }
      NothingMade(made, other, c[2..], p);
    }
  }

  // ----- Merging

  lemma {:induction false} SilentKeys(made: Mark, c: seq<Node>, p: seq<Step>)
    requires UnsplitKeys(c) && p != [] && forall i :: !HoldsAt(c, i, p)
    ensures PairKeys(made, c, p) == []
    decreases |c|
  {
    if c != [] {
      UnsplitUnfolds(made, c, p);
      assert !HoldsAt(c, 0, p);
      forall i ensures !HoldsAt(c[2..], i, p) {
        assert HoldsAt(c[2..], i, p) ==> HoldsAt(c, i + 2, p);
      }
      SilentKeys(made, c[2..], p);
    }
  }

  lemma {:induction false} DistinctPairKeys(made: Mark, c: seq<Node>, i: int, p: seq<Step>)
    requires UnsplitKeys(c) && DistinctKeys(c) && HoldsAt(c, i, p)
    ensures PairKeys(made, c, p) == KeysAt(c[i + 1], p[1..])
    decreases |c|
  {
    UnsplitUnfolds(made, c, p);
    if i == 0 {
      forall j ensures !HoldsAt(c[2..], j, p) {
        assert HoldsAt(c[2..], j, p) ==> HoldsAt(c, j + 2, p);
      }
      SilentKeys(made, c[2..], p);
    } else {
      assert HoldsAt(c[2..], i - 2, p);
      assert !HoldsAt(c, 0, p);
      DistinctTail(c);
      DistinctPairKeys(made, c[2..], i - 2, p);
    }
  }

  lemma {:induction false} KeyNames(made: Mark, c: seq<Node>)
    requires UnsplitKeys(c)
    ensures forall i :: 0 <= i < |c| && i % 2 == 0 ==> Name(c[i].value, c[i].style) in PairKeys(made, c, [])
    decreases |c|
  {
    if c != [] {
      UnsplitUnfolds(made, c, []);
      KeyNames(made, c[2..]);
      forall i | 0 <= i < |c| && i % 2 == 0 ensures Name(c[i].value, c[i].style) in PairKeys(made, c, []) {
        if i > 0 {
          assert c[2..][i - 2] == c[i];
        }
      }
    }
  }

  lemma {:induction false} UpdatedNames(made: Mark, c: seq<Node>, j: nat, n: Node)
    requires |c| % 2 == 0 && j < |c| && j % 2 == 1
    ensures PairKeys(made, c[j := n], []) == PairKeys(made, c, [])
    decreases |c|
  {
    if j == 1 {
      assert c[j := n][2..] == c[2..];
    } else {
      assert c[j := n][2..] == c[2..][j - 2 := n];
      UpdatedNames(made, c[2..], j - 2, n);
    }
  }

  /** Merging one more pair into distinct keys; no key is left to split in the value merged. */
  lemma MergedPairKeys(made: Mark, kept: seq<Node>, i: nat, key: Node, v: Node, p: seq<Step>)
    requires UnsplitKeys(kept) && DistinctKeys(kept) && i < |kept| && i % 2 == 0
    requires !Splits(key) && kept[i].value == key.value
    requires kept[i + 1].kind.Mapping? && v.kind.Mapping? && |kept[i + 1].content| % 2 == 0 && UnsplitKeys(v.content)
    ensures SameOrder(PairKeys(made, kept, p) + PairKeys(made, [key, v], p),
                      PairKeys(made, kept[i + 1 := kept[i + 1].(content := kept[i + 1].content + v.content)], p))
  {
    var merged := kept[i + 1].(content := kept[i + 1].content + v.content);
    OnePairKeys(made, key, v, p);
    UnsplitKeyed(made, key, v, p);
    if p == [] {
      MergedNames(made, kept, i, key, merged);
    } else if p[0] == Key(key.value) {
      MergedKeysBelow(made, kept, i, merged, v, p);
    } else {
      OtherEntryKeys(made, kept, i, merged, p);
      assert PairKeys(made, kept, p) + [] == PairKeys(made, kept, p);
    }
  }

  lemma MergedNames(made: Mark, kept: seq<Node>, i: nat, key: Node, merged: Node)
    requires UnsplitKeys(kept) && i < |kept| && i % 2 == 0 && kept[i].value == key.value
    ensures SameOrder(PairKeys(made, kept, []) + [Name(key.value, key.style)],
                      PairKeys(made, kept[i + 1 := merged], []))
  {
    var names, name := PairKeys(made, kept, []), Name(key.value, key.style);
    UpdatedNames(made, kept, i + 1, merged);
    KeyNames(made, kept);
    assert Id(Name(kept[i].value, kept[i].style)) == Id(name) && Id(name) in Ids(names);
    SeenBefore(names, name, []);
    assert names + ([name] + []) == names + [name] && names + [] == names;
  }

  /** Of two mappings under one key the first keeps its style, and the pairs of the other come after its own. */
  lemma MergedKeysBelow(made: Mark, kept: seq<Node>, i: nat, merged: Node, v: Node, p: seq<Step>)
    requires UnsplitKeys(kept) && DistinctKeys(kept) && i < |kept| && i % 2 == 0
    requires kept[i + 1].kind.Mapping? && |kept[i + 1].content| % 2 == 0
    requires v.kind.Mapping? && UnsplitKeys(v.content)
    requires merged == kept[i + 1].(content := kept[i + 1].content + v.content)
    requires p != [] && p[0] == Key(kept[i].value)
    ensures SameOrder(PairKeys(made, kept, p) + KeysAt(v, p[1..]), PairKeys(made, kept[i + 1 := merged], p))
  {
    var kept' := kept[i + 1 := merged];
    assert UnsplitKeys(kept') && DistinctKeys(kept');
    assert HoldsAt(kept, i, p) && HoldsAt(kept', i, p);
    DistinctPairKeys(made, kept, i, p);
    DistinctPairKeys(made, kept', i, p);
    MergedKeys(kept[i + 1], v, p[1..]);
  }

  lemma {:induction false} MergedKeys(first: Node, v: Node, q: seq<Step>)
    requires first.kind.Mapping? && v.kind.Mapping? && |first.content| % 2 == 0 && UnsplitKeys(v.content)
    ensures SameOrder(KeysAt(first, q) + KeysAt(v, q), KeysAt(first.(content := first.content + v.content), q))
  {
    var mark := MarkOf(first);
    PairKeysConcat(mark, first.content, v.content, q);
    NothingMade(mark, MarkOf(v), v.content, q);
    MergedMarks(mark, PairKeys(mark, first.content, q), MarkOf(v), PairKeys(mark, v.content, q));
  }

  lemma MergedMarks(m: Mark, a: seq<Mark>, m': Mark, b: seq<Mark>)
    requires Id(m) == Id(m')
    ensures SameOrder(([m] + a) + ([m'] + b), [m] + (a + b))
    ensures ([] + a) + ([] + b) == [] + (a + b)
  {
    IdsCons(m, a);
    SeenBefore([m] + a, m', b);
    Associates([m], a, b);
    Associates([], a, [] + b);
    WithoutNothing(a);
    WithoutNothing(b);
    WithoutNothing(a + b);
  }

  lemma UnsplitUpdated(c: seq<Node>, j: nat, n: Node)
    requires UnsplitKeys(c) && j < |c| && j % 2 == 1
    ensures UnsplitKeys(c[j := n])
  {
  }

  lemma {:induction false} OtherEntryKeys(made: Mark, c: seq<Node>, i: nat, n: Node, p: seq<Step>)
    requires UnsplitKeys(c) && i < |c| && i % 2 == 0 && p != [] && p[0] != Key(c[i].value)
    ensures PairKeys(made, c[i + 1 := n], p) == PairKeys(made, c, p)
    decreases |c|
  {
    var d := c[i + 1 := n];
    UnsplitUnfolds(made, c, p);
    UnsplitUpdated(c, i + 1, n);
    UnsplitUnfolds(made, d, p);
    if i == 0 {
      assert d[2..] == c[2..];
    } else {
      assert c[2..][i - 2] == c[i] && d[2..] == c[2..][i - 1 := n];
      OtherEntryKeys(made, c[2..], i - 2, n, p);
    }
  }

  /** Merging one more pair at one path, with the pairs still to come in `rest`. */
  lemma {:induction false} MergedAndRest(made: Mark, kept: seq<Node>, i: nat, key: Node, v: Node, rest: seq<Node>,
                                         p: seq<Step>)
    requires UnsplitKeys(kept) && DistinctKeys(kept) && i < |kept| && i % 2 == 0
    requires !Splits(key) && kept[i].value == key.value
    requires kept[i + 1].kind.Mapping? && v.kind.Mapping? && |kept[i + 1].content| % 2 == 0 && UnsplitKeys(v.content)
    ensures SameOrder(PairKeys(made, kept + ([key, v] + rest), p),
                      PairKeys(made, kept[i + 1 := kept[i + 1].(content := kept[i + 1].content + v.content)] + rest, p))
  {
    var merged := kept[i + 1 := kept[i + 1].(content := kept[i + 1].content + v.content)];
    MergedPairKeys(made, kept, i, key, v, p);
    PairKeysConcat(made, kept, [key, v] + rest, p);
    PairKeysConcat(made, [key, v], rest, p);
    PairKeysConcat(made, merged, rest, p);
    var x, y, z := PairKeys(made, kept, p), PairKeys(made, [key, v], p), PairKeys(made, rest, p);
    SameOrderConcat(x + y, PairKeys(made, merged, p), z, z);
    Associates(x, y, z);
  }

  /** No key is left to split in the mappings of `c`. */
  predicate UnsplitBelow(c: seq<Node>) {
    forall n | n in c :: UnsplitIn(n)
  }

  predicate UnsplitIn(n: Node) {
    n.kind.Mapping? ==> UnsplitKeys(n.content)
  }

  lemma MergeOneOrder(made: Mark, kept: seq<Node>, key: Node, v: Node, rest: seq<Node>)
    requires UnsplitKeys(kept) && DistinctKeys(kept) && !Splits(key) && AllWellFormed(kept)
    requires UnsplitIn(v)
    requires ConflictFree(MapOf(kept + ([key, v] + rest)))
    ensures PairsKept(made, kept + ([key, v] + rest), MergeOne(kept, key, v) + rest)
  {
    var i := FindKey(kept, key.value);
    if i == |kept| {
      Associates(kept, [key, v], rest);
      PairsKeptSame(made, kept + ([key, v] + rest));
    } else {
      BothAreMappings(kept, i, key, v, rest);
      MergedEverywhere(made, kept, i, key, v, rest);
    }
  }

  lemma PairsKeptSame(made: Mark, c: seq<Node>)
    ensures PairsKept(made, c, c)
  {
  }

  lemma BothAreMappings(kept: seq<Node>, i: nat, key: Node, v: Node, rest: seq<Node>)
    requires UnsplitKeys(kept) && DistinctKeys(kept) && !Splits(key) && AllWellFormed(kept)
    requires UnsplitIn(v) && ConflictFree(MapOf(kept + ([key, v] + rest)))
    requires i < |kept| && i % 2 == 0 && kept[i].value == key.value
    ensures kept[i + 1].kind.Mapping? && v.kind.Mapping? && |kept[i + 1].content| % 2 == 0 && UnsplitKeys(v.content)
  {
    RepeatedAreMappings(kept, i, key, v, rest);
    assert kept[i + 1] in kept;
    ScalarKeysAreEven(kept[i + 1].content);
  }

  lemma MergedEverywhere(made: Mark, kept: seq<Node>, i: nat, key: Node, v: Node, rest: seq<Node>)
    requires UnsplitKeys(kept) && DistinctKeys(kept) && i < |kept| && i % 2 == 0
    requires !Splits(key) && kept[i].value == key.value
    requires kept[i + 1].kind.Mapping? && v.kind.Mapping? && |kept[i + 1].content| % 2 == 0 && UnsplitKeys(v.content)
    ensures PairsKept(made, kept + ([key, v] + rest),
                      kept[i + 1 := kept[i + 1].(content := kept[i + 1].content + v.content)] + rest)
  {
    var a := kept + ([key, v] + rest);
    var b := kept[i + 1 := kept[i + 1].(content := kept[i + 1].content + v.content)] + rest;
    forall p: seq<Step> ensures SameOrder(PairKeys(made, a, p), PairKeys(made, b, p)) {
      MergedAndRest(made, kept, i, key, v, rest, p);
    }
  }

  lemma {:induction false} UnsplitConcat(a: seq<Node>, b: seq<Node>)
    requires UnsplitKeys(a) && UnsplitKeys(b)
    ensures UnsplitKeys(a + b)
    decreases |a|
  {
    if a == [] {
      assert a + b == b;
    } else {
      UnsplitTail(a);
      UnsplitConcat(a[2..], b);
      UnsplitCons(a[0], a[1], a[2..] + b);
      assert [a[0], a[1]] + (a[2..] + b) == a + b;
    }
  }

  lemma UnsplitBelowConcat(a: seq<Node>, b: seq<Node>)
    requires UnsplitBelow(a) && UnsplitBelow(b)
    ensures UnsplitBelow(a + b)
  {
  }

  lemma UnsplitUpdate(c: seq<Node>, j: nat, n: Node)
    requires j < |c| && UnsplitBelow(c) && UnsplitIn(n)
    ensures UnsplitBelow(c[j := n])
  {
    forall m | m in c[j := n] ensures UnsplitIn(m) {
      var k :| 0 <= k < |c| && c[j := n][k] == m;
      assert k != j ==> m == c[k] && c[k] in c;
    }
  }

  lemma MergedIsUnsplit(first: Node, v: Node)
    requires UnsplitIn(first) && UnsplitIn(v) && v.kind.Mapping?
    ensures UnsplitIn(first.(content := first.content + v.content))
  {
    if first.kind.Mapping? {
      UnsplitConcat(first.content, v.content);
    }
  }

  lemma MergedAtUnsplit(kept: seq<Node>, j: nat, v: Node)
    requires j < |kept| && UnsplitBelow(kept) && UnsplitIn(v) && v.kind.Mapping?
    ensures UnsplitBelow(kept[j := kept[j].(content := kept[j].content + v.content)])
  {
    assert kept[j] in kept;
    MergedIsUnsplit(kept[j], v);
    UnsplitUpdate(kept, j, kept[j].(content := kept[j].content + v.content));
  }

  lemma PairUnsplit(key: Node, v: Node)
    requires UnsplitIn(key) && UnsplitIn(v)
    ensures UnsplitBelow([key, v])
  {
  }

  /** One step of merging, with the key kept at `i` or kept now. */
  lemma MergeOneUnsplitBelow(kept: seq<Node>, i: nat, key: Node, v: Node, next: seq<Node>)
    requires UnsplitBelow(kept) && UnsplitIn(key) && UnsplitIn(v)
    requires if i == |kept| then next == kept + [key, v]
             else i + 1 < |kept| && v.kind.Mapping?
                  && next == kept[i + 1 := kept[i + 1].(content := kept[i + 1].content + v.content)]
    ensures UnsplitBelow(next)
  {
    if i == |kept| {
      PairUnsplit(key, v);
      UnsplitBelowConcat(kept, [key, v]);
    } else {
      MergedAtUnsplit(kept, i + 1, v);
    }
  }

  lemma {:induction false} MergeFromOrder(made: Mark, kept: seq<Node>, c: seq<Node>)
    requires UnsplitKeys(kept) && DistinctKeys(kept) && AllWellFormed(kept) && UnsplitBelow(kept)
    requires UnsplitKeys(c) && AllWellFormed(c) && UnsplitBelow(c)
    requires ConflictFree(MapOf(kept + c))
    ensures PairsKept(made, kept + c, MergeFrom(kept, c))
    decreases |c|
  {
    if c == [] {
      assert kept + c == kept;
    } else {
      var key, v, rest := c[0], c[1], c[2..];
      var next := MergeOne(kept, key, v);
      assert c == [key, v] + rest && key in c && v in c;
      MergeOneSame(kept, key, v, rest);
      MergeOneKeepsShape(kept, key, v, rest);
      MergeOneOrder(made, kept, key, v, rest);
      var i := FindKey(kept, key.value);
      if i < |kept| {
        RepeatedAreMappings(kept, i, key, v, rest);
      }
      MergeOneUnsplitBelow(kept, i, key, v, next);
      UnsplitTail(c);
      SameKeepsConflictFree(MapOf(kept + c), MapOf(next + rest));
      MergeFromOrder(made, next, rest);
      PairsKeptTransitive(made, kept + c, next + rest, MergeFrom(kept, c));
    }
  }

  // ----- Expanding

  lemma {:induction false} PairsOrder(parent: Node, c: seq<Node>)
    requires parent.kind.Mapping? && ScalarKeys(c) && AllWellFormed(c) && ConflictFree(MapOf(c))
    ensures Paired(c) && ExtendPairs(parent, c).Some? && UnsplitBelow(ExtendPairs(parent, c).value)
    ensures PairsKept(MarkOf(parent), c, ExtendPairs(parent, c).value)
    decreases Weights(c) + 1, 0
  {
    if c != [] {
      SplitWeight(parent, c[0], c[1]);
      WeightsPair(c);
      ConflictFreeTail(c);
      ConflictFreeValue(parent, c);
      SplitWellFormed(parent, c[0], c[1]);
      var v := OuterValue(parent, c[0], c[1]);
      Expands(v);
      ExpandingKeepsOrder(v);
      PairsOrder(parent, c[2..]);
      var r := ExtendPairs(parent, c).value;
      var v', rest := Extend(v).value, ExtendPairs(parent, c[2..]).value;
      assert r == [OuterKey(c[0]), v'] + rest && r[2..] == rest;
      forall p: seq<Step> ensures SameOrder(PairKeys(MarkOf(parent), c, p), PairKeys(MarkOf(parent), r, p)) {
        assert SameOrder(PairKeys(MarkOf(parent), c[2..], p), PairKeys(MarkOf(parent), rest, p));
        FirstPairOrder(parent, c, v', rest, p);
      }
    }
  }

  lemma {:induction false} FirstPairOrder(parent: Node, c: seq<Node>, v': Node, rest: seq<Node>, p: seq<Step>)
    requires parent.kind.Mapping? && |c| >= 2 && OrderKept(OuterValue(parent, c[0], c[1]), v')
    requires SameOrder(PairKeys(MarkOf(parent), c[2..], p), PairKeys(MarkOf(parent), rest, p))
    ensures SameOrder(PairKeys(MarkOf(parent), c, p), PairKeys(MarkOf(parent), [OuterKey(c[0]), v'] + rest, p))
  {
    var made, key, r := MarkOf(parent), OuterKey(c[0]), [OuterKey(c[0]), v'] + rest;
    SplitKeepsKeys(parent, c[0], c[1], p);
    KeyedOrder(made, key.style, KeySegments(key), OuterValue(parent, c[0], c[1]), v', p);
    assert r[0] == key && r[1] == v' && r[2..] == rest;
    SameOrderConcat(KeyedKeys(made, c[0].style, KeySegments(c[0]), c[1], p),
                    KeyedKeys(made, key.style, KeySegments(key), v', p),
                    PairKeys(made, c[2..], p), PairKeys(made, rest, p));
  }

  lemma {:induction false} EntriesOrder(made: Mark, c: seq<Node>, d: seq<Node>)
    requires |c| == |d| && |c| % 2 == 0
    requires forall i :: 0 <= i < |c| ==> if i % 2 == 0 then c[i] == d[i] else OrderKept(c[i], d[i])
    ensures PairsKept(made, c, d)
    decreases |c|
  {
    if c != [] {
      EntriesOrder(made, c[2..], d[2..]);
      forall p: seq<Step> ensures SameOrder(PairKeys(made, c, p), PairKeys(made, d, p)) {
        KeyedOrder(made, c[0].style, KeySegments(c[0]), c[1], d[1], p);
        assert SameOrder(PairKeys(made, c[2..], p), PairKeys(made, d[2..], p));
        SameOrderConcat(KeyedKeys(made, c[0].style, KeySegments(c[0]), c[1], p),
                        KeyedKeys(made, d[0].style, KeySegments(d[0]), d[1], p),
                        PairKeys(made, c[2..], p), PairKeys(made, d[2..], p));
      }
    }
  }

  /** The second pass, over distinct keys. */
  lemma {:induction false} SecondPassOrder(made: Mark, m: seq<Node>)
    requires UnsplitKeys(m) && DistinctKeys(m) && AllWellFormed(m) && ConflictFree(MapOf(m))
    ensures ExtendEach(m).Some? && PairsKept(made, m, ExtendEach(m).value)
    decreases Weights(m) + 1, 1
  {
    forall n | n in m ensures ConflictFree(n) {
      var i :| 0 <= i < |m| && m[i] == n;
      if i % 2 == 0 {
        LeafExtends(n);
      } else {
        ConflictFreeEntry(m, i - 1);
      }
    }
    EachExpands(m);
    var r := ExtendEach(m).value;
    forall i | 0 <= i < |m| ensures if i % 2 == 0 then m[i] == r[i] else OrderKept(m[i], r[i]) {
      if i % 2 == 0 {
        LeafExtends(m[i]);
      } else {
        ItemWeight(m, i);
        ExpandingKeepsOrder(m[i]);
      }
    }
    EntriesOrder(made, m, r);
  }

  lemma {:induction false} ItemWeight(c: seq<Node>, i: nat)
    requires i < |c|
    ensures Weight(c[i]) <= Weights(c)
    decreases |c|
  {
    if i > 0 {
      ItemWeight(c[1..], i - 1);
    }
  }

  /** At every path, mappings and keys of the expanded tree are written in the order and the styles in which they first
      appear in the original. */
  lemma {:induction false} ExpandingKeepsOrder(t: Node)
    requires WellFormed(t) && ConflictFree(t)
    ensures Extend(t).Some? && OrderKept(t, Extend(t).value)
    decreases Weight(t), 3
  {
    Expands(t);
    if t.kind.Mapping? {
      MappingSame(t, t);
      PairsExpand(t, t.content);
      PairsOrder(t, t.content);
      var c := ExtendPairs(t, t.content).value;
      assert [] + c == c;
      SameKeepsConflictFree(MapOf(t.content), MapOf(c));
      MergeFromSame([], c);
      MergeFromOrder(MarkOf(t), [], c);
      var m := MergeFrom([], c);
      SameKeepsConflictFree(MapOf(c), MapOf(m));
      SecondPassOrder(MarkOf(t), m);
      var r := ExtendEach(m).value;
      PairsKeptTransitive(MarkOf(t), t.content, c, m);
      PairsKeptTransitive(MarkOf(t), t.content, m, r);
      assert ExtendMap(t) == Some(t.(content := m));
      assert Extend(t) == Some(t.(content := r));
      OrderOfContent(t, t.(content := r));
    } else {
      ItemsOrder(t);
    }
  }

  lemma OrderOfContent(t: Node, u: Node)
    requires t.kind.Mapping? && u == t.(content := u.content) && PairsKept(MarkOf(t), t.content, u.content)
    ensures OrderKept(t, u)
  {
    forall p: seq<Step> ensures SameOrder(KeysAt(t, p), KeysAt(u, p)) {
      assert SameOrder(PairKeys(MarkOf(t), t.content, p), PairKeys(MarkOf(t), u.content, p));
      var first := if p == [] then [MarkOf(t)] else [];
      SameOrderConcat(first, first, PairKeys(MarkOf(t), t.content, p), PairKeys(MarkOf(t), u.content, p));
    }
  }

  lemma {:induction false} ItemsOrder(t: Node)
    requires !t.kind.Mapping? && WellFormed(t) && ConflictFree(t)
    ensures Extend(t).Some? && OrderKept(t, Extend(t).value)
    decreases Weight(t), 2
  {
    forall n | n in t.content ensures ConflictFree(n) {
      var i :| 0 <= i < |t.content| && t.content[i] == n;
      ConflictFreeItem(t, i);
    }
    EachExpands(t.content);
    var u := Extend(t).value;
    forall p: seq<Step> ensures SameOrder(KeysAt(t, p), KeysAt(u, p)) {
      if p != [] && p[0].Item? && p[0].index < |t.content| {
        var i := p[0].index;
        ItemWeight(t.content, i);
        ExpandingKeepsOrder(t.content[i]);
        assert SameOrder(KeysAt(t.content[i], p[1..]), KeysAt(u.content[i], p[1..]));
      }
    }
  }
}
