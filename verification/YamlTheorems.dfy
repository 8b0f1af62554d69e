/** Exactly when expanding works, that it is stable, and what it does to conflicting input. */
module YamlTheorems {
  import opened DottedKeys
  import opened Options
  import opened YamlTree
  import opened YamlMeaning

  // ----- Normal trees have no conflicts

  /** Entry `i` of a mapping's content is the one that path `p` leads through. */
  predicate HoldsAt(c: seq<Node>, i: int, p: seq<Step>) {
    0 <= i < |c| - 1 && i % 2 == 0 && p != [] && p[0] == Key(c[i].value)
  }

  lemma {:induction false} UnsplitCountsFirst(c: seq<Node>, p: seq<Step>, l: Label)
    requires UnsplitKeys(c) && c != [] && p != []
    ensures CountPairs(c, p, l)
         == (if HoldsAt(c, 0, p) then Count(c[1], p[1..], l) else 0) + CountPairs(c[2..], p, l)
  {
    assert KeySegments(c[0]) == [c[0].value];
    if HoldsAt(c, 0, p) {
      assert p == [Key(c[0].value)] + p[1..];
      KeyedReaches(c[0], c[1], p[1..], l);
    }
  }

  lemma {:induction false} OtherKeysCountNothing(c: seq<Node>, p: seq<Step>, l: Label)
    requires UnsplitKeys(c) && p != [] && forall i :: !HoldsAt(c, i, p)
    ensures CountPairs(c, p, l) == 0
    decreases |c|
  {
    if c != [] {
      UnsplitTail(c);
      UnsplitCountsFirst(c, p, l);
      forall i ensures !HoldsAt(c[2..], i, p) {
        assert HoldsAt(c[2..], i, p) ==> HoldsAt(c, i + 2, p);
      }
      OtherKeysCountNothing(c[2..], p, l);
    }
  }

  lemma {:induction false} DistinctCounts(c: seq<Node>, i: int, p: seq<Step>, l: Label)
    requires UnsplitKeys(c) && DistinctKeys(c) && HoldsAt(c, i, p)
    ensures CountPairs(c, p, l) == Count(c[i + 1], p[1..], l)
    decreases |c|
  {
    UnsplitTail(c);
    UnsplitCountsFirst(c, p, l);
    if i == 0 {
      forall j ensures !HoldsAt(c[2..], j, p) {
        assert HoldsAt(c[2..], j, p) ==> HoldsAt(c, j + 2, p);
      }
      OtherKeysCountNothing(c[2..], p, l);
    } else {
      assert HoldsAt(c[2..], i - 2, p);
      DistinctTail(c);
      DistinctCounts(c[2..], i - 2, p, l);
    }
  }

  lemma DistinctTail(c: seq<Node>)
    requires |c| >= 2 && DistinctKeys(c)
    ensures DistinctKeys(c[2..])
  {
    forall i, j | 0 <= i < j < |c[2..]| && i % 2 == 0 && j % 2 == 0
      ensures c[2..][i].value != c[2..][j].value
    {
      assert c[2..][i] == c[i + 2] && c[2..][j] == c[j + 2];
    }
  }

  /** In a normal tree at most one thing is found at a path. */
  lemma {:induction false} NormalFindsOne(t: Node, p: seq<Step>, l: Label, l': Label)
    requires Normal(t) && Count(t, p, l) > 0
    ensures Count(t, p, l) == 1
    ensures Count(t, p, l') > 0 ==> l' == l
    decreases t
  {
    if p != [] {
      if t.kind.Mapping? {
        if forall i :: !HoldsAt(t.content, i, p) {
          OtherKeysCountNothing(t.content, p, l);
        }
        var i :| HoldsAt(t.content, i, p);
        DistinctCounts(t.content, i, p, l);
        DistinctCounts(t.content, i, p, l');
        NormalFindsOne(t.content[i + 1], p[1..], l, l');
      } else {
        NormalFindsOne(t.content[p[0].index], p[1..], l, l');
      }
    }
  }

  lemma {:induction false} NormalIsConflictFree(t: Node)
    requires Normal(t)
    ensures ConflictFree(t)
  {
    forall p: seq<Step>, l: Label | l != Group ensures Count(t, p, l) <= 1 {
      if Count(t, p, l) > 0 {
        NormalFindsOne(t, p, l, l);
      }
    }
    forall p: seq<Step>, l: Label, l': Label | Count(t, p, l) > 0 && Count(t, p, l') > 0 ensures l == l' {
      NormalFindsOne(t, p, l, l');
    }
  }

  lemma SameSymmetric(t: Node, u: Node)
    requires Same(t, u)
    ensures Same(u, t)
  {
    forall p: seq<Step>, l: Label ensures SameAt(Count(u, p, l), Count(t, p, l), l) {
      assert SameAt(Count(t, p, l), Count(u, p, l), l);
    }
  }

  /** Expanding yields a normal tree with the same meaning exactly on the trees without conflicts. */
  lemma {:induction false} ExpandsExactlyWithoutConflicts(t: Node)
    requires WellFormed(t)
    ensures ConflictFree(t) <==> Extend(t).Some? && Normal(Extend(t).value) && Same(t, Extend(t).value)
  {
    if ConflictFree(t) {
      Expands(t);
    } else if Extend(t).Some? && Normal(Extend(t).value) && Same(t, Extend(t).value) {
      NormalIsConflictFree(Extend(t).value);
      SameSymmetric(t, Extend(t).value);
      SameKeepsConflictFree(Extend(t).value, t);
    }
  }

  // ----- Expanding again changes nothing

  lemma {:induction false} NormalPairsStay(parent: Node, c: seq<Node>)
    requires parent.kind.Mapping? && UnsplitKeys(c) && forall n | n in c :: Normal(n)
    ensures Paired(c) && ExtendPairs(parent, c) == Some(c)
    decreases c, 0
  {
    UnsplitAreScalars(c);
    ScalarsArePaired(c);
    if c != [] {
      UnsplitTail(c);
      NormalStays(c[1]);
      NormalPairsStay(parent, c[2..]);
      assert [c[0], c[1]] + c[2..] == c;
    }
  }

  lemma {:induction false} DistinctMergeStays(kept: seq<Node>, c: seq<Node>)
    requires |kept| % 2 == 0 && |c| % 2 == 0 && DistinctKeys(kept + c)
    ensures MergeFrom(kept, c) == kept + c
    decreases |c|
  {
    if c == [] {
      assert kept + c == kept;
    } else {
      forall j | 0 <= j < |kept| && j % 2 == 0 ensures kept[j].value != c[0].value {
        assert (kept + c)[j].value != (kept + c)[|kept|].value;
      }
      assert (kept + [c[0], c[1]]) + c[2..] == kept + c;
      DistinctMergeStays(kept + [c[0], c[1]], c[2..]);
    }
  }

  lemma {:induction false} EachStays(c: seq<Node>)
    requires forall n | n in c :: Normal(n)
    ensures ExtendEach(c) == Some(c)
    decreases c, 0
  {
    if c == [] {
      assert ExtendEach(c) == Some([]);
    } else {
      NormalStays(c[0]);
      EachStays(c[1..]);
      assert [c[0]] + c[1..] == c;
    }
  }

  lemma {:induction false} NormalStays(t: Node)
    requires Normal(t)
    ensures Extend(t) == Some(t)
    decreases t, 1
  {
    if t.kind.Mapping? {
      NormalPairsStay(t, t.content);
      assert [] + t.content == t.content;
      DistinctMergeStays([], t.content);
    }
    EachStays(t.content);
  }

  lemma {:induction false} ExpandingTwice(t: Node)
    requires WellFormed(t) && ConflictFree(t)
    ensures Extend(t).Some? && Extend(Extend(t).value) == Extend(t)
  {
    Expands(t);
    NormalStays(Extend(t).value);
  }

  // ----- Conflicting input

  /** A value under `a` beside any `a.b`, as in `a: 1` and `a.b: 2`, is a conflict, so it is not expanded faithfully. */
  lemma ValueBesideDottedKey(key: Node, v: Node, dotted: Node, w: Node)
    requires WellFormed(MapOf([key, v, dotted, w]))
    requires !Splits(key) && !v.kind.Mapping? && Splits(dotted) && Base(dotted.value) == key.value
    ensures var r := Extend(MapOf([key, v, dotted, w]));
            !(r.Some? && Normal(r.value) && Same(MapOf([key, v, dotted, w]), r.value))
  {
    var c := [key, v, dotted, w];
    var p := [Key(key.value)];
    assert [] == p[1..] && p + [] == p;
    forall l: Label ensures Count(MapOf(c), p, l) == Count(v, [], l) + CountKeyed(KeySegments(dotted), w, p, l) {
      assert c[2..] == [dotted, w];
      CountOnePair(dotted, w, p, l);
      KeyedReaches(key, v, [], l);
    }
    assert KeySegments(dotted) == [key.value] + Segments(Rest(dotted.value));
    assert KeySegments(dotted)[1..] != [] && CountKeyed(KeySegments(dotted)[1..], w, p[1..], Group) == 1;
    assert Count(MapOf(c), p, LabelOf(v)) > 0 && Count(MapOf(c), p, Group) > 0;
    ExpandsExactlyWithoutConflicts(MapOf(c));
  }
}
