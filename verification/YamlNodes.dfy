/** The formatter's own code: nodes on the heap, rewritten in place. */
module YamlNodes {
  import opened Sequences
  import opened DottedKeys
  import opened Options
  import opened YamlTree

  class YamlNode {
    var kind: Kind
    var style: nat
    var value: string
    var content: seq<YamlNode>

    /** A copy of a node's fields, as dereferencing and assigning a struct makes. */
    constructor CopyOf(n: YamlNode)
      ensures kind == n.kind && style == n.style && value == n.value && content == n.content
    {
      kind, style, value, content := n.kind, n.style, n.value, n.content;
    }

    /** A plain node without content. */
    constructor Plain(k: Kind, v: string)
      ensures kind == k && style == 0 && value == v && content == []
    {
      kind, style, value, content := k, 0, v, [];
    }
  }

  // ----- The tree that nodes form

  /** The nodes of a tree and how they hang together. */
  datatype Shape = Shape(node: YamlNode, subs: seq<Shape>)

  ghost function Refs(s: Shape): set<YamlNode>
    decreases s, 1
  {
    {s.node} + RefsOf(s.subs)
  }

  ghost function RefsOf(ss: seq<Shape>): set<YamlNode>
    decreases ss, 0
  {
    if ss == [] then {} else Refs(ss[0]) + RefsOf(ss[1..])
  }

  ghost function NodesOf(ss: seq<Shape>): (ns: seq<YamlNode>)
    ensures |ns| == |ss| && forall i :: 0 <= i < |ss| ==> ns[i] == ss[i].node
  {
    seq(|ss|, i requires 0 <= i < |ss| => ss[i].node)
  }

  /** The nodes are linked as `s` says and no node occurs twice. */
  ghost predicate Shaped(s: Shape)
    reads Refs(s)
    decreases s, 1
  {
    s.node.content == NodesOf(s.subs) && s.node !in RefsOf(s.subs) && ShapedAll(s.subs)
  }

  ghost predicate ShapedAll(ss: seq<Shape>)
    reads RefsOf(ss)
    decreases ss, 0
  {
    ss == [] || (Shaped(ss[0]) && ShapedAll(ss[1..]) && Refs(ss[0]) !! RefsOf(ss[1..]))
  }

  /** The tree the nodes stand for. */
  ghost function View(s: Shape): Node
    reads Refs(s)
    decreases s, 1
  {
    Node(s.node.kind, s.node.style, s.node.value, ViewAll(s.subs))
  }

  ghost function ViewAll(ss: seq<Shape>): (ns: seq<Node>)
    reads RefsOf(ss)
    ensures |ns| == |ss|
    decreases ss, 0
  {
    if ss == [] then [] else [View(ss[0])] + ViewAll(ss[1..])
  }

  lemma {:induction false} RefsConcat(a: seq<Shape>, b: seq<Shape>)
    ensures RefsOf(a + b) == RefsOf(a) + RefsOf(b)
    decreases |a|
  {
    if a == [] {
      assert a + b == b;
    } else {
      assert (a + b)[1..] == a[1..] + b;
      RefsConcat(a[1..], b);
    }
  }

  lemma {:induction false} ShapedConcat(a: seq<Shape>, b: seq<Shape>)
    ensures ShapedAll(a + b) <==> ShapedAll(a) && ShapedAll(b) && RefsOf(a) !! RefsOf(b)
    decreases |a|
  {
    if a == [] {
      assert a + b == b;
    } else {
      assert (a + b)[1..] == a[1..] + b;
      RefsConcat(a[1..], b);
      ShapedConcat(a[1..], b);
    }
  }

  lemma {:induction false} ViewConcat(a: seq<Shape>, b: seq<Shape>)
    ensures ViewAll(a + b) == ViewAll(a) + ViewAll(b)
    decreases |a|
  {
    if a == [] {
      assert a + b == b;
    } else {
      assert (a + b)[1..] == a[1..] + b;
      ViewConcat(a[1..], b);
    }
  }

  lemma {:induction false} One(s: Shape)
    ensures RefsOf([s]) == Refs(s) && ViewAll([s]) == [View(s)] && ShapedAll([s]) == Shaped(s)
  {
    assert [s][1..] == [];
  }

  /** Everything about a list of shapes that ends in one more. */
  lemma {:induction false} Snoc(a: seq<Shape>, s: Shape)
    ensures RefsOf(a + [s]) == RefsOf(a) + Refs(s)
    ensures ViewAll(a + [s]) == ViewAll(a) + [View(s)]
    ensures ShapedAll(a + [s]) <==> ShapedAll(a) && Shaped(s) && RefsOf(a) !! Refs(s)
    ensures NodesOf(a + [s]) == NodesOf(a) + [s.node]
  {
    One(s);
    RefsConcat(a, [s]);
    ViewConcat(a, [s]);
    ShapedConcat(a, [s]);
  }

  /** What becomes of other nodes does not concern a list of shapes. */
  twostate lemma Framed(ss: seq<Shape>)
    requires forall n | n in RefsOf(ss) :: old(allocated(n)) && unchanged(n)
    ensures ShapedAll(ss) == old(ShapedAll(ss)) && ViewAll(ss) == old(ViewAll(ss))
  {
  }

  lemma {:induction false} ViewSplit(ss: seq<Shape>, i: nat)
    requires i < |ss|
    ensures RefsOf(ss[i..]) == Refs(ss[i]) + RefsOf(ss[i + 1..])
    ensures ViewAll(ss[i..]) == [View(ss[i])] + ViewAll(ss[i + 1..])
    ensures ShapedAll(ss[i..]) <==>
      Shaped(ss[i]) && ShapedAll(ss[i + 1..]) && Refs(ss[i]) !! RefsOf(ss[i + 1..])
  {
    assert ss[i..][0] == ss[i] && ss[i..][1..] == ss[i + 1..];
  }

  /** Expanding one more item of a list. */
  lemma {:induction false} EachStep(done: seq<Node>, v: Node, c: seq<Node>, all: seq<Node>)
    requires ExtendEach([v] + c).Some? && done + ExtendEach([v] + c).value == all
    ensures Extend(v).Some? && ExtendEach(c).Some?
    ensures (done + [Extend(v).value]) + ExtendEach(c).value == all
    ensures Weights([v] + c) == Weight(v) + Weights(c)
  {
    assert ([v] + c)[1..] == c;
    var w, d := Extend(v).value, ExtendEach(c).value;
    assert done + ([w] + d) == (done + [w]) + d;
  }

  twostate lemma FramedOne(s: Shape)
    requires forall n | n in Refs(s) :: old(allocated(n)) && unchanged(n)
    ensures Shaped(s) == old(Shaped(s)) && View(s) == old(View(s))
  {
  }

  // ----- extendNestedObjects

  method ExtendNestedObjects(node: YamlNode, ghost s: Shape) returns (ghost r: Shape)
    requires s.node == node && Shaped(s) && Extend(View(s)).Some?
    modifies Refs(s)
    ensures r.node == node && Shaped(r) && forall n | n in Refs(r) :: n in Refs(s) || fresh(n)
    ensures Some(View(r)) == old(Extend(View(s)))
    decreases Weight(View(s)), 3
  {
    r := s;
    if node.kind == Mapping {
      r := ExtendMapNode(node, s);
    }
    ghost var subs := ExtendChildren(node.content, r.subs);
    r := Shape(node, subs);
  }

  /** The loop over a node's children. */
  method ExtendChildren(children: seq<YamlNode>, ghost subs: seq<Shape>) returns (ghost done: seq<Shape>)
    requires children == NodesOf(subs) && ShapedAll(subs) && ExtendEach(ViewAll(subs)).Some?
    modifies RefsOf(subs)
    ensures children == NodesOf(done) && ShapedAll(done)
    ensures forall n | n in RefsOf(done) :: n in RefsOf(subs) || fresh(n)
    ensures Some(ViewAll(done)) == old(ExtendEach(ViewAll(subs)))
    decreases Weights(ViewAll(subs)) + 1, 1
  {
    ghost var all := ExtendEach(ViewAll(subs)).value;
    assert Some(all) == old(ExtendEach(ViewAll(subs)));
    ghost var start := Weights(ViewAll(subs));
    done := [];
    assert subs[0..] == subs;
    for i := 0 to |children|
      invariant Underway(children, subs, i, done, all)
      invariant Weights(ViewAll(subs[i..])) <= start
      invariant forall n | n in RefsOf(subs[i..]) :: n in RefsOf(subs)
      invariant forall n | n in RefsOf(done) :: n in RefsOf(subs) || fresh(n)
    {
      done := ExtendChild(children, subs, i, done, all);
    }
    assert ViewAll(subs[|children|..]) == [];
    assert ExtendEach([]) == Some([]);
    assert ViewAll(done) == ViewAll(done) + [] == all;
  }

  /** The first `i` children are finished, with shapes `done`; finishing the others will complete `all`. */
  ghost predicate Underway(children: seq<YamlNode>, subs: seq<Shape>, i: nat, done: seq<Shape>, all: seq<Node>)
    requires i <= |subs|
    reads RefsOf(done), RefsOf(subs[i..])
  {
    && |subs| == |children| && |done| == i
    && (forall j :: i <= j < |subs| ==> subs[j].node == children[j])
    && (forall j :: 0 <= j < i ==> done[j].node == children[j])
    && ShapedAll(done) && ShapedAll(subs[i..]) && RefsOf(done) !! RefsOf(subs[i..])
    && ExtendEach(ViewAll(subs[i..])).Some?
    && ViewAll(done) + ExtendEach(ViewAll(subs[i..])).value == all
  }

  /** One turn of the loop. */
  method ExtendChild(children: seq<YamlNode>, ghost subs: seq<Shape>, i: nat, ghost done: seq<Shape>,
                     ghost all: seq<Node>)
    returns (ghost more: seq<Shape>)
    requires i < |subs| && i < |children| && Underway(children, subs, i, done, all)
    modifies RefsOf(subs[i..])
    ensures Underway(children, subs, i + 1, more, all)
    ensures Weights(ViewAll(subs[i + 1..])) <= old(Weights(ViewAll(subs[i..])))
    ensures forall n | n in RefsOf(subs[i + 1..]) :: n in RefsOf(subs[i..])
    ensures forall n | n in RefsOf(more) :: n in RefsOf(done) || n in RefsOf(subs[i..]) || fresh(n)
    decreases Weights(ViewAll(subs[i..])) + 1, 0
  {
    ghost var head, rest := subs[i], subs[i + 1..];
    ViewSplit(subs, i);
    EachStep(ViewAll(done), View(head), ViewAll(rest), all);
    assert allocated(RefsOf(done));
    assert allocated(RefsOf(rest));
    label Before:
    ghost var sub := ExtendNestedObjects(children[i], head);
    Framed@Before(done);
    Framed@Before(rest);
    Snoc(done, sub);
    more := done + [sub];
  }

  // ----- extendMapNode

  method ExtendMapNode(node: YamlNode, ghost s: Shape) returns (ghost r: Shape)
    requires s.node == node && node.kind == Mapping && Shaped(s) && ExtendMap(View(s)).Some?
    modifies Refs(s)
    ensures r.node == node && Shaped(r) && forall n | n in Refs(r) :: n in Refs(s) || fresh(n)
    ensures Some(View(r)) == old(ExtendMap(View(s)))
    decreases Weight(View(s)), 2
  {
    PairedEven(View(s).content);
    ghost var pairs := ExtendContent(node, s);
    ghost var kept := MergeNodes(node, pairs);
    r := Shape(node, kept);
  }

  /** The loop over the pairs of a mapping. */
  method ExtendContent(node: YamlNode, ghost s: Shape) returns (ghost done: seq<Shape>)
    requires s.node == node && node.kind == Mapping && Shaped(s)
    requires Paired(View(s).content) && ExtendPairs(View(s), View(s).content).Some?
    modifies Refs(s)
    ensures node.kind == old(node.kind) && node.style == old(node.style) && node.value == old(node.value)
    ensures node.content == NodesOf(done) && ShapedAll(done) && node !in RefsOf(done) && |done| == |s.subs|
    ensures forall n | n in RefsOf(done) :: n in Refs(s) || fresh(n)
    ensures Some(ViewAll(done)) == old(ExtendPairs(View(s), View(s).content))
    decreases Weight(View(s)), 1
  {
    ghost var parent := View(s);
    ghost var all := ExtendPairs(parent, parent.content).value;
    ghost var todo := s.subs;
    done := [];
    assert done + todo == todo;
    var i := 0;
    while i < |node.content|
      invariant i == |done| && |node.content| == |done| + |todo| == |s.subs|
      invariant Splitting(node, parent, done, todo)
      invariant Paired(ViewAll(todo)) && ExtendPairs(parent, ViewAll(todo)).Some?
      invariant ViewAll(done) + ExtendPairs(parent, ViewAll(todo)).value == all
      invariant Weights(ViewAll(todo)) < Weight(parent)
      invariant forall n | n in RefsOf(todo) :: n in Refs(s)
      invariant forall n | n in RefsOf(done) :: n in Refs(s) || fresh(n)
      decreases |node.content| - i
    {
      assert |ViewAll(todo)| >= 2;
      TwoSplit(todo);
      PairStep(ViewAll(done), parent, View(todo[0]), View(todo[1]), ViewAll(todo[2..]), all);
      done := ExtendPair(node, i, parent, done, todo);
      todo := todo[2..];
      i := i + 2;
    }
    assert ExtendPairs(parent, []) == Some([]);
    assert ViewAll(done) == ViewAll(done) + [] == all;
    assert done + todo == done;
  }

  lemma {:induction false} PairedEven(c: seq<Node>)
    requires Paired(c)
    ensures |c| % 2 == 0
    decreases |c|
  {
    if c != [] {
      PairedEven(c[2..]);
    }
  }

  /** The content of a mapping is made of the pairs `done` and then the pairs `todo`. */
  ghost predicate Splitting(node: YamlNode, parent: Node, done: seq<Shape>, todo: seq<Shape>)
    reads node, RefsOf(done), RefsOf(todo)
  {
    && parent.kind.Mapping? && node.kind == parent.kind && node.style == parent.style && node.value == parent.value
    && node.content == NodesOf(done + todo)
    && ShapedAll(done) && ShapedAll(todo) && RefsOf(done) !! RefsOf(todo)
    && node !in RefsOf(done) && node !in RefsOf(todo)
  }

  /** One turn of the loop over pairs: split the key if it has a dot, then expand the value. */
  method ExtendPair(node: YamlNode, i: nat, ghost parent: Node, ghost done: seq<Shape>, ghost todo: seq<Shape>)
    returns (ghost more: seq<Shape>)
    requires i == |done| && |todo| >= 2 && Splitting(node, parent, done, todo)
    requires Splittable(View(todo[0]))
    requires Extend(OuterValue(parent, View(todo[0]), View(todo[1]))).Some?
    modifies node`content, RefsOf(todo)
    ensures |more| == |done| + 2 && Splitting(node, parent, more, todo[2..])
    ensures ViewAll(more) == old(ViewAll(done)) +
      [old(OuterKey(View(todo[0]))), old(Extend(OuterValue(parent, View(todo[0]), View(todo[1])))).value]
    ensures ViewAll(todo[2..]) == old(ViewAll(todo[2..]))
    ensures forall n | n in RefsOf(todo[2..]) :: n in RefsOf(todo)
    ensures forall n | n in RefsOf(more) :: n in RefsOf(done) || n in RefsOf(todo) || fresh(n)
    decreases Weights(ViewAll(todo)) + 1, 0
  {
    ghost var ks, vs, rest := todo[0], todo[1], todo[2..];
    TwoSplit(todo);
    OuterWeight(parent, View(ks), View(vs), ViewAll(rest));
    PairInPlace(done, todo);
    ghost var ks', vs' := SplitPair(node, i, parent, done, ks, vs, rest);
    more := ExtendValue(node.content[i + 1], done, ks', vs', rest);
    NodesConcat(more, rest);
    NodesConcat(done + [ks', vs'], rest);
  }

  lemma PairInPlace(done: seq<Shape>, todo: seq<Shape>)
    requires |todo| >= 2
    ensures done + todo == done + [todo[0], todo[1]] + todo[2..]
  {
  }

  /** Splits the key of a pair, among the pairs before and after it. */
  method SplitPair(node: YamlNode, i: nat, ghost parent: Node, ghost done: seq<Shape>, ghost ks: Shape,
                   ghost vs: Shape, ghost rest: seq<Shape>)
    returns (ghost ks': Shape, ghost vs': Shape)
    requires i == |done| && node.content == NodesOf(done + [ks, vs] + rest)
    requires ShapedAll(done) && Shaped(ks) && Shaped(vs) && ShapedAll(rest)
    requires RefsOf(done) !! Refs(ks) && RefsOf(done) !! Refs(vs) && RefsOf(done) !! RefsOf(rest)
    requires Refs(ks) !! Refs(vs) && Refs(ks) !! RefsOf(rest) && Refs(vs) !! RefsOf(rest)
    requires node !in RefsOf(done) && node !in Refs(ks) && node !in Refs(vs) && node !in RefsOf(rest)
    requires node.kind == parent.kind && node.style == parent.style && node.value == parent.value
    requires Splittable(View(ks))
    modifies node`content
    ensures node.content == NodesOf(done + [ks', vs'] + rest) && node.content[i + 1] == vs'.node
    ensures ShapedAll(done) && Shaped(ks') && Shaped(vs') && ShapedAll(rest)
    ensures RefsOf(done) !! Refs(ks') && RefsOf(done) !! Refs(vs')
    ensures Refs(ks') !! Refs(vs') && Refs(ks') !! RefsOf(rest) && Refs(vs') !! RefsOf(rest)
    ensures node !in Refs(ks') && node !in Refs(vs')
    ensures forall n | n in Refs(ks') || n in Refs(vs') :: n in Refs(ks) || n in Refs(vs) || fresh(n)
    ensures ViewAll(done) == old(ViewAll(done)) && ViewAll(rest) == old(ViewAll(rest))
    ensures View(ks') == OuterKey(old(View(ks))) && View(vs') == OuterValue(parent, old(View(ks)), old(View(vs)))
  {
    assert allocated(RefsOf(done));
    assert allocated(RefsOf(rest));
    assert (done + [ks, vs] + rest)[i] == ks && (done + [ks, vs] + rest)[i + 1] == vs;
    ks', vs' := SplitKey(node, i, parent, ks, vs);
    Framed(done);
    Framed(rest);
    NodesReplaced(done, ks, vs, ks', vs', rest);
  }

  /** Expands the value of a pair, among the pairs before and after it. */
  method ExtendValue(value: YamlNode, ghost done: seq<Shape>, ghost ks: Shape, ghost vs: Shape,
                     ghost rest: seq<Shape>)
    returns (ghost more: seq<Shape>)
    requires value == vs.node && Extend(View(vs)).Some?
    requires ShapedAll(done) && Shaped(ks) && Shaped(vs) && ShapedAll(rest)
    requires RefsOf(done) !! Refs(ks) && RefsOf(done) !! Refs(vs) && RefsOf(done) !! RefsOf(rest)
    requires Refs(ks) !! Refs(vs) && Refs(ks) !! RefsOf(rest) && Refs(vs) !! RefsOf(rest)
    modifies Refs(vs)
    ensures |more| == |done| + 2 && NodesOf(more) == NodesOf(done + [ks, vs])
    ensures ShapedAll(more) && ShapedAll(rest) && RefsOf(more) !! RefsOf(rest)
    ensures ViewAll(more) == old(ViewAll(done)) + [old(View(ks)), old(Extend(View(vs))).value]
    ensures ViewAll(rest) == old(ViewAll(rest))
    ensures forall n | n in RefsOf(more) :: n in RefsOf(done) || n in Refs(ks) || n in Refs(vs) || fresh(n)
    decreases Weight(View(vs)), 4
  {
    assert allocated(RefsOf(done));
    assert allocated(RefsOf(rest));
    assert allocated(Refs(ks));
    ghost var sub := ExtendNestedObjects(value, vs);
    Framed(done);
    Framed(rest);
    FramedOne(ks);
    more := TwoJoin(done, ks, sub);
  }

  lemma {:induction false} TwoSplit(ss: seq<Shape>)
    requires |ss| >= 2
    ensures RefsOf(ss) == Refs(ss[0]) + Refs(ss[1]) + RefsOf(ss[2..])
    ensures ViewAll(ss) == [View(ss[0]), View(ss[1])] + ViewAll(ss[2..])
    ensures ShapedAll(ss) <==>
      && Shaped(ss[0]) && Shaped(ss[1]) && ShapedAll(ss[2..])
      && Refs(ss[0]) !! Refs(ss[1]) && Refs(ss[0]) !! RefsOf(ss[2..]) && Refs(ss[1]) !! RefsOf(ss[2..])
  {
    assert ss[0..] == ss;
    ViewSplit(ss, 0);
    ViewSplit(ss, 1);
  }

  lemma {:induction false} OuterWeight(parent: Node, k: Node, v: Node, c: seq<Node>)
    requires parent.kind.Mapping? && Splittable(k)
    ensures Weight(OuterValue(parent, k, v)) <= Weights([k, v] + c)
  {
    assert ([k, v] + c)[2..] == c;
    WeightsPair([k, v] + c);
    SplitWeight(parent, k, v);
  }

  lemma NodesReplaced(done: seq<Shape>, a: Shape, b: Shape, a': Shape, b': Shape, rest: seq<Shape>)
    ensures NodesOf(done + [a, b] + rest)[|done| := a'.node][|done| + 1 := b'.node]
         == NodesOf(done + [a', b'] + rest)
  {
    assert done + [a', b'] + rest == (done + [a, b] + rest)[|done| := a'][|done| + 1 := b'];
  }

  lemma NodesConcat(a: seq<Shape>, b: seq<Shape>)
    ensures NodesOf(a + b) == NodesOf(a) + NodesOf(b)
  {
  }

  lemma TwoJoin(done: seq<Shape>, a: Shape, b: Shape) returns (more: seq<Shape>)
    requires ShapedAll(done) && Shaped(a) && Shaped(b)
    requires RefsOf(done) !! Refs(a) && RefsOf(done) !! Refs(b) && Refs(a) !! Refs(b)
    ensures more == done + [a, b] && ShapedAll(more)
    ensures RefsOf(more) == RefsOf(done) + Refs(a) + Refs(b)
    ensures ViewAll(more) == ViewAll(done) + [View(a), View(b)]
  {
    Snoc(done, a);
    Snoc(done + [a], b);
    more := done + [a] + [b];
  }

  /** Splitting and expanding one more pair. */
  lemma {:induction false} PairStep(done: seq<Node>, parent: Node, k: Node, v: Node, c: seq<Node>, all: seq<Node>)
    requires parent.kind.Mapping? && Paired([k, v] + c) && ExtendPairs(parent, [k, v] + c).Some?
    requires done + ExtendPairs(parent, [k, v] + c).value == all
    ensures Splittable(k) && Paired(c) && ExtendPairs(parent, c).Some?
    ensures Extend(OuterValue(parent, k, v)).Some?
    ensures (done + [OuterKey(k), Extend(OuterValue(parent, k, v)).value]) + ExtendPairs(parent, c).value == all
    ensures Weights(c) <= Weights([k, v] + c)
  {
    var d := [k, v] + c;
    assert d[2..] == c;
    WeightsPair(d);
    var w, e := Extend(OuterValue(parent, k, v)).value, ExtendPairs(parent, c).value;
    assert done + ([OuterKey(k), w] + e) == (done + [OuterKey(k), w]) + e;
  }

  /** Replaces a key with a dot, and its value, by the first segment and a new mapping for the rest. */
  method SplitKey(node: YamlNode, i: nat, ghost parent: Node, ghost ks: Shape, ghost vs: Shape)
    returns (ghost ks': Shape, ghost vs': Shape)
    requires i + 1 < |node.content| && node.content[i] == ks.node && node.content[i + 1] == vs.node
    requires Shaped(ks) && Shaped(vs) && Refs(ks) !! Refs(vs) && node !in Refs(ks) && node !in Refs(vs)
    requires node.kind == parent.kind && node.style == parent.style && node.value == parent.value
    requires Splittable(View(ks))
    modifies node`content
    ensures node.content == old(node.content)[i := ks'.node][i + 1 := vs'.node]
    ensures Shaped(ks') && Shaped(vs') && Refs(ks') !! Refs(vs') && node !in Refs(ks') && node !in Refs(vs')
    ensures forall n | n in Refs(ks') :: n in Refs(ks) || fresh(n)
    ensures forall n | n in Refs(vs') :: n in Refs(vs) || fresh(n)
    ensures View(ks') == OuterKey(old(View(ks))) && View(vs') == OuterValue(parent, old(View(ks)), old(View(vs)))
  {
    ks', vs' := ks, vs;
    var key, value := node.content[i], node.content[i + 1];
    if HasDot(key.value) && key.style == 0 {
      assert allocated(Refs(vs));
      var newKey, newNode;
      newKey, newNode, ks', vs' := NestKey(node, key, value, ks, vs);
      assert allocated(Refs(ks'));
      assert allocated(Refs(vs'));
      label Nested:
      node.content := node.content[i := newKey][i + 1 := newNode];
      FramedOne@Nested(ks');
      FramedOne@Nested(vs');
    }
  }

  /** The new key and value for a key that splits. */
  method NestKey(node: YamlNode, key: YamlNode, value: YamlNode, ghost ks: Shape, ghost vs: Shape)
    returns (newKey: YamlNode, newNode: YamlNode, ghost ks': Shape, ghost vs': Shape)
    requires key == ks.node && value == vs.node && Shaped(ks) && Shaped(vs)
    requires HasDot(key.value) && key.style == 0 && View(ks).content == []
    ensures ks'.node == newKey && vs'.node == newNode && Shaped(ks') && Shaped(vs') && Refs(ks') !! Refs(vs')
    ensures fresh(Refs(ks')) && fresh(Refs(vs') - Refs(vs))
    ensures View(ks') == View(ks).(value := Base(key.value))
    ensures View(vs') == Node(node.kind, node.style, node.value,
                              [View(ks).(value := Rest(key.value)), View(vs)])
  {
    assert ViewAll(ks.subs) == [];
    assert allocated(Refs(vs));
    // The outer key: the first segment, with nothing below it.
    newKey := new YamlNode.CopyOf(key);
    newKey.value := Base(key.value);
    // The inner key: what is left of the text.
    var newChildKey := new YamlNode.CopyOf(key);
    newChildKey.value := Rest(key.value);
    // The outer value: kind, style and text are those of the parent.
    newNode := new YamlNode.CopyOf(node);
    newNode.content := [newChildKey, value];
    FramedOne(vs);
    LeafShape(newKey);
    PairShape(newNode, newChildKey, vs);
    ks' := Shape(newKey, []);
    vs' := Shape(newNode, [Shape(newChildKey, []), vs]);
  }

  lemma LeafShape(n: YamlNode)
    requires n.content == []
    ensures Shaped(Shape(n, [])) && Refs(Shape(n, [])) == {n}
    ensures View(Shape(n, [])) == Node(n.kind, n.style, n.value, [])
  {
  }

  lemma {:induction false} PairShape(n: YamlNode, key: YamlNode, vs: Shape)
    requires n.content == [key, vs.node] && key.content == [] && Shaped(vs)
    requires n != key && n !in Refs(vs) && key !in Refs(vs)
    ensures var s := Shape(n, [Shape(key, []), vs]);
            && Shaped(s) && Refs(s) == {n, key} + Refs(vs)
            && View(s) == Node(n.kind, n.style, n.value, [Node(key.kind, key.style, key.value, []), View(vs)])
  {
    var k := Shape(key, []);
    LeafShape(key);
    One(vs);
    assert [k, vs][1..] == [vs];
  }

  // ----- mergeNodes

  method MergeNodes(node: YamlNode, ghost subs: seq<Shape>) returns (ghost kept: seq<Shape>)
    requires node.content == NodesOf(subs) && ShapedAll(subs) && node !in RefsOf(subs) && |subs| % 2 == 0
    modifies node`content, RefsOf(subs)
    ensures node.content == NodesOf(kept) && ShapedAll(kept) && node !in RefsOf(kept)
    ensures RefsOf(kept) <= RefsOf(subs)
    ensures ViewAll(kept) == MergeFrom([], old(ViewAll(subs)))
  {
    MergeStart(node, subs);
    ghost var target := MergeFrom([], ViewAll(subs));
    var k;
    ghost var keys, todo;
    k, keys, kept, todo := MergePairs(node, subs, target, RefsOf(subs));
    Cut(node, keys, k, |node.content|, kept, todo, target, RefsOf(subs));
  }

  /** The loop over pairs. */
  method MergePairs(node: YamlNode, ghost subs: seq<Shape>, ghost target: seq<Node>, ghost owned: set<YamlNode>)
    returns (k: nat, ghost known: map<string, YamlNode>, ghost kept: seq<Shape>, ghost todo: seq<Shape>)
    requires Merging(node, map[], 0, 0, [], subs, target, owned)
    modifies node`content, owned
    ensures RefsOf(kept) <= owned && Merging(node, known, k, |node.content|, kept, todo, target, owned)
  {
    var keys: map<string, YamlNode> := map[];
    var i: nat := 0;
    k, kept, todo := 0, [], subs;
    while i < |node.content|
      invariant Merging(node, keys, k, i, kept, todo, target, owned)
      decreases |node.content| - i
    {
      keys, k, kept := MergePair(node, keys, k, i, kept, todo, target, owned);
      todo := todo[2..];
      i := i + 2;
    }
    known := keys;
  }

  lemma {:induction false} MergeStart(node: YamlNode, subs: seq<Shape>)
    requires node.content == NodesOf(subs) && ShapedAll(subs) && node !in RefsOf(subs) && |subs| % 2 == 0
    ensures Merging(node, map[], 0, 0, [], subs, MergeFrom([], ViewAll(subs)), RefsOf(subs))
  {
    assert node.content[..0] == NodesOf([]);
    assert Known(map[], [], []);
  }

  /** What the loop leaves behind the pairs kept is cut off. */
  method Cut(node: YamlNode, ghost keys: map<string, YamlNode>, k: nat, i: nat, ghost kept: seq<Shape>,
             ghost todo: seq<Shape>, ghost target: seq<Node>, ghost owned: set<YamlNode>)
    requires i == |node.content| && Merging(node, keys, k, i, kept, todo, target, owned)
    modifies node`content
    ensures node.content == NodesOf(kept) && ShapedAll(kept) && node !in RefsOf(kept) && RefsOf(kept) <= owned
    ensures ViewAll(kept) == target
  {
    assert node.content[i..] == [];
    assert ViewAll(todo) == [];
    assert allocated(RefsOf(kept));
    node.content := node.content[..k];
    Framed(kept);
  }

  /** The loop's state: merging the pairs `todo` into those kept will complete `target`. */
  ghost predicate Merging(node: YamlNode, keys: map<string, YamlNode>, k: nat, i: nat,
                          kept: seq<Shape>, todo: seq<Shape>, target: seq<Node>, owned: set<YamlNode>)
    reads node, RefsOf(kept), RefsOf(todo)
  {
    && Compacting(node, k, i, kept, todo)
    && RefsOf(kept) <= owned && RefsOf(todo) <= owned
    && Remaining(keys, ViewAll(kept), kept, ViewAll(todo), target)
  }

  ghost predicate Remaining(keys: map<string, YamlNode>, vs: seq<Node>, kept: seq<Shape>, c: seq<Node>,
                            target: seq<Node>) {
    Known(keys, vs, kept) && |c| % 2 == 0 && MergeFrom(vs, c) == target
  }

  lemma KeepNext(keys: map<string, YamlNode>, vs: seq<Node>, kept: seq<Shape>, c: seq<Node>, target: seq<Node>,
                 ks: Shape, s: Shape)
    requires Remaining(keys, vs, kept, c, target) && |c| >= 2 && c[0].value !in keys
    ensures Remaining(keys[c[0].value := s.node], vs + [c[0], c[1]], kept + [ks, s], c[2..], target)
  {
    KnownAdd(keys, vs, kept, c[0], c[1], ks, s);
    assert MergeOne(vs, c[0], c[1]) == vs + [c[0], c[1]];
  }

  lemma MergeNext(keys: map<string, YamlNode>, vs: seq<Node>, kept: seq<Shape>, c: seq<Node>, target: seq<Node>,
                  s: Shape)
    returns (j: nat)
    requires Remaining(keys, vs, kept, c, target) && |c| >= 2 && c[0].value in keys
    ensures j < |vs| == |kept| && keys[c[0].value] == kept[j].node
    ensures Remaining(keys, vs[j := vs[j].(content := vs[j].content + c[1].content)],
                      kept[j := Shape(kept[j].node, kept[j].subs + s.subs)], c[2..], target)
  {
    j := FindKey(vs, c[0].value) + 1;
    KnownMerge(keys, vs, kept, j, c[1], s);
    assert MergeOne(vs, c[0], c[1]) == vs[j := vs[j].(content := vs[j].content + c[1].content)];
  }

  /** One turn of the loop over pairs. */
  method MergePair(node: YamlNode, keys: map<string, YamlNode>, k: nat, i: nat, ghost kept: seq<Shape>,
                   ghost todo: seq<Shape>, ghost target: seq<Node>, ghost owned: set<YamlNode>)
    returns (keys': map<string, YamlNode>, k': nat, ghost more: seq<Shape>)
    requires i < |node.content| && Merging(node, keys, k, i, kept, todo, target, owned)
    modifies node`content, RefsOf(kept)
    ensures |node.content| == old(|node.content|)
    ensures |todo| >= 2 && Merging(node, keys', k', i + 2, more, todo[2..], target, owned)
  {
    assert |node.content[i..]| == |todo| >= 2;
    var key := node.content[i];
    var value := node.content[i + 1];
    ghost var ks, vs := todo[0], todo[1];
    assert key == node.content[i..][0] && value == node.content[i..][1];
    TwoSplit(todo);
    keys', k' := keys, k;
    assert View(ks).value == key.value && value == todo[1].node;
    if key.value !in keys {
      KeepNext(keys, ViewAll(kept), kept, ViewAll(todo), target, ks, vs);
      keys' := keys[key.value := value];
      more := KeepPair(node, k, i, kept, todo);
      k' := k + 2;
    } else {
      ghost var j := MergeNext(keys, ViewAll(kept), kept, ViewAll(todo), target, vs);
      more := AppendContent(node, k, i, keys[key.value], value, kept, j, todo);
    }
  }

  /** The first `k` children are those kept, and those from `i` on are still to come. */
  ghost predicate Compacting(node: YamlNode, k: nat, i: nat, kept: seq<Shape>, todo: seq<Shape>)
    reads node, RefsOf(kept), RefsOf(todo)
  {
    && k == |kept| && k <= i <= |node.content|
    && node.content[..k] == NodesOf(kept) && node.content[i..] == NodesOf(todo)
    && ShapedAll(kept) && ShapedAll(todo) && RefsOf(kept) !! RefsOf(todo)
    && node !in RefsOf(kept) && node !in RefsOf(todo)
  }

  /** `keys` holds, for every key kept, the node of its value. */
  ghost predicate Known(keys: map<string, YamlNode>, vs: seq<Node>, kept: seq<Shape>) {
    && |vs| == |kept| && |vs| % 2 == 0
    && (forall name {:trigger name in keys} :: name in keys <==> FindKey(vs, name) < |vs|)
    && (forall name {:trigger keys[name]} | name in keys :: keys[name] == kept[FindKey(vs, name) + 1].node)
  }

  lemma {:induction false} FindKeyAppend(vs: seq<Node>, key: Node, v: Node, name: string)
    requires |vs| % 2 == 0
    ensures FindKey(vs + [key, v], name)
         == if FindKey(vs, name) < |vs| || key.value != name then
              if FindKey(vs, name) < |vs| then FindKey(vs, name) else |vs| + 2
            else |vs|
    decreases |vs|
  {
    if vs == [] {
      assert [] + [key, v] == [key, v] && [key, v][2..] == [];
    } else {
      assert (vs + [key, v])[2..] == vs[2..] + [key, v];
      FindKeyAppend(vs[2..], key, v, name);
    }
  }

  lemma {:induction false} FindKeyUpdate(vs: seq<Node>, j: nat, v: Node, name: string)
    requires |vs| % 2 == 0 && j < |vs| && j % 2 == 1
    ensures FindKey(vs[j := v], name) == FindKey(vs, name)
    decreases |vs|
  {
    if vs[0].value != name {
      if j == 1 {
        assert vs[j := v][2..] == vs[2..];
      } else {
        assert vs[j := v][2..] == vs[2..][j - 2 := v];
        FindKeyUpdate(vs[2..], j - 2, v, name);
      }
    }
  }

  lemma KnownAdd(keys: map<string, YamlNode>, vs: seq<Node>, kept: seq<Shape>, key: Node, v: Node,
                 ks: Shape, s: Shape)
    requires Known(keys, vs, kept) && key.value !in keys
    ensures Known(keys[key.value := s.node], vs + [key, v], kept + [ks, s])
  {
    forall name ensures FindKey(vs + [key, v], name)
      == if FindKey(vs, name) < |vs| then FindKey(vs, name) else if key.value == name then |vs| else |vs| + 2
    {
      FindKeyAppend(vs, key, v, name);
    }
  }

  lemma KnownMerge(keys: map<string, YamlNode>, vs: seq<Node>, kept: seq<Shape>, j: nat, v: Node, s: Shape)
    requires Known(keys, vs, kept) && j < |vs| && j % 2 == 1
    ensures Known(keys, vs[j := vs[j].(content := vs[j].content + v.content)],
                  kept[j := Shape(kept[j].node, kept[j].subs + s.subs)])
  {
    var v' := vs[j].(content := vs[j].content + v.content);
    forall name ensures FindKey(vs[j := v'], name) == FindKey(vs, name) {
      FindKeyUpdate(vs, j, v', name);
    }
  }

  /** Moves a pair with a new key down to the pairs kept. */
  method KeepPair(node: YamlNode, k: nat, i: nat, ghost kept: seq<Shape>, ghost todo: seq<Shape>)
    returns (ghost more: seq<Shape>)
    requires Compacting(node, k, i, kept, todo) && |todo| >= 2
    modifies node`content
    ensures more == kept + [todo[0], todo[1]] && Compacting(node, k + 2, i + 2, more, todo[2..])
    ensures ViewAll(more) == old(ViewAll(kept)) + [old(View(todo[0])), old(View(todo[1]))]
    ensures ViewAll(todo[2..]) == old(ViewAll(todo[2..]))
    ensures RefsOf(more) == RefsOf(kept) + Refs(todo[0]) + Refs(todo[1])
  {
    TwoSplit(todo);
    assert allocated(RefsOf(kept));
    assert allocated(RefsOf(todo));
    ghost var rest := node.content[i..];
    node.content := node.content[k := node.content[i]][k + 1 := node.content[i + 1]];
    assert node.content[i + 2..] == rest[2..];
    Framed(kept);
    Framed(todo);
    TwoSplit(todo);
    more := TwoJoin(kept, todo[0], todo[1]);
  }

  /** Appends the content of a repeated key's value to the value already kept. */
  method AppendContent(node: YamlNode, ghost k: nat, ghost i: nat, merged: YamlNode, value: YamlNode,
                       ghost kept: seq<Shape>, ghost j: nat, ghost todo: seq<Shape>)
    returns (ghost more: seq<Shape>)
    requires Compacting(node, k, i, kept, todo) && |todo| >= 2 && value == todo[1].node
    requires j < |kept| && merged == kept[j].node
    modifies RefsOf(kept)
    ensures unchanged(node)
    ensures more == kept[j := Shape(kept[j].node, kept[j].subs + todo[1].subs)]
    ensures Compacting(node, k, i + 2, more, todo[2..])
    ensures ViewAll(more) == old(ViewAll(kept)[j := ViewAll(kept)[j].(
      content := ViewAll(kept)[j].content + View(todo[1]).content)])
    ensures ViewAll(todo[2..]) == old(ViewAll(todo[2..]))
    ensures forall n | n in RefsOf(more) :: n in RefsOf(kept) || n in RefsOf(todo)
  {
    TwoSplit(todo);
    Middle(kept, j);
    assert node.content[i + 2..] == NodesOf(todo)[2..] == NodesOf(todo[2..]);
    more := AppendAmong(merged, value, kept, j, todo[1], todo[2..]);
  }

  method AppendAmong(merged: YamlNode, value: YamlNode, ghost kept: seq<Shape>, ghost j: nat, ghost y: Shape,
                     ghost rest: seq<Shape>)
    returns (ghost more: seq<Shape>)
    requires j < |kept| && merged == kept[j].node && value == y.node
    requires ShapedAll(kept) && Shaped(y) && ShapedAll(rest)
    requires RefsOf(kept) !! Refs(y) && RefsOf(kept) !! RefsOf(rest) && Refs(y) !! RefsOf(rest)
    modifies merged`content
    ensures more == kept[j := Shape(kept[j].node, kept[j].subs + y.subs)] && NodesOf(more) == NodesOf(kept)
    ensures ShapedAll(more) && ShapedAll(rest) && RefsOf(more) <= RefsOf(kept) + Refs(y)
    ensures ViewAll(more) == old(ViewAll(kept)[j := ViewAll(kept)[j].(
      content := ViewAll(kept)[j].content + View(y).content)])
    ensures ViewAll(rest) == old(ViewAll(rest))
  {
    ghost var a, x, b := kept[..j], kept[j], kept[j + 1..];
    Middle(kept, j);
    MiddleUpdate(ViewAll(a), View(x), View(x).(content := View(x).content + View(y).content), ViewAll(b));
    assert allocated(RefsOf(a));
    assert allocated(RefsOf(b));
    assert allocated(RefsOf(rest));
    label Before:
    ghost var x' := AppendTo(merged, value, x, y);
    Framed@Before(a);
    Framed@Before(b);
    Framed@Before(rest);
    more := Replaced(kept, j, x');
  }

  method AppendTo(merged: YamlNode, value: YamlNode, ghost x: Shape, ghost y: Shape) returns (ghost x': Shape)
    requires merged == x.node && value == y.node && Shaped(x) && Shaped(y) && Refs(x) !! Refs(y)
    modifies merged`content
    ensures x' == Shape(x.node, x.subs + y.subs) && Shaped(x') && Refs(x') <= Refs(x) + Refs(y)
    ensures View(x') == old(View(x).(content := View(x).content + View(y).content))
  {
    assert allocated(RefsOf(x.subs));
    assert allocated(RefsOf(y.subs));
    merged.content := merged.content + value.content;
    Framed(x.subs);
    Framed(y.subs);
    x' := Shape(x.node, x.subs + y.subs);
    RefsConcat(x.subs, y.subs);
    ShapedConcat(x.subs, y.subs);
    ViewConcat(x.subs, y.subs);
  }

  lemma MiddleUpdate(a: seq<Node>, x: Node, x': Node, b: seq<Node>)
    ensures (a + [x] + b)[|a|] == x && (a + [x] + b)[|a| := x'] == a + [x'] + b
  {
  }

  lemma Replaced(kept: seq<Shape>, j: nat, x: Shape) returns (more: seq<Shape>)
    requires j < |kept| && x.node == kept[j].node
    requires ShapedAll(kept[..j]) && Shaped(x) && ShapedAll(kept[j + 1..])
    requires RefsOf(kept[..j]) !! Refs(x) && RefsOf(kept[..j]) !! RefsOf(kept[j + 1..])
    requires Refs(x) !! RefsOf(kept[j + 1..])
    ensures more == kept[j := x] && NodesOf(more) == NodesOf(kept) && ShapedAll(more)
    ensures RefsOf(more) == RefsOf(kept[..j]) + Refs(x) + RefsOf(kept[j + 1..])
    ensures ViewAll(more) == ViewAll(kept[..j]) + [View(x)] + ViewAll(kept[j + 1..])
  {
    more := kept[j := x];
    assert more[..j] == kept[..j] && more[j + 1..] == kept[j + 1..];
    Middle(more, j);
  }

  /** A list of shapes, seen as what is before, at and after position `j`. */
  lemma {:induction false} Middle(ss: seq<Shape>, j: nat)
    requires j < |ss|
    ensures RefsOf(ss) == RefsOf(ss[..j]) + Refs(ss[j]) + RefsOf(ss[j + 1..])
    ensures ViewAll(ss) == ViewAll(ss[..j]) + [View(ss[j])] + ViewAll(ss[j + 1..])
    ensures ShapedAll(ss) <==>
      && ShapedAll(ss[..j]) && Shaped(ss[j]) && ShapedAll(ss[j + 1..])
      && RefsOf(ss[..j]) !! Refs(ss[j]) && RefsOf(ss[..j]) !! RefsOf(ss[j + 1..])
      && Refs(ss[j]) !! RefsOf(ss[j + 1..])
  {
    var a, x, b := ss[..j], ss[j], ss[j + 1..];
    CutAt(ss, j);
    Cons(x, b);
    RefsConcat(a, [x] + b);
    ViewConcat(a, [x] + b);
    Associates(ViewAll(a), [View(x)], ViewAll(b));
    ShapedConcat(a, [x] + b);
    DisjointFromBoth(RefsOf(a), Refs(x), RefsOf(b));
  }

  lemma {:induction false} Cons(x: Shape, b: seq<Shape>)
    ensures RefsOf([x] + b) == Refs(x) + RefsOf(b) && ViewAll([x] + b) == [View(x)] + ViewAll(b)
    ensures ShapedAll([x] + b) <==> Shaped(x) && ShapedAll(b) && Refs(x) !! RefsOf(b)
  {
    assert ([x] + b)[1..] == b;
  }

  lemma DisjointFromBoth(a: set<YamlNode>, x: set<YamlNode>, b: set<YamlNode>)
    ensures a !! (x + b) <==> a !! x && a !! b
  {
  }
}
