/** The tree a YAML parser yields, and what expanding its dotted keys computes. */
module YamlTree {
  import opened DottedKeys
  import opened Options

  datatype Kind = Document | Sequence | Mapping | Scalar | Alias

  /** A node. A mapping holds its keys and values alternately. Style 0 is a plain, unquoted scalar. */
  datatype Node = Node(kind: Kind, style: nat, value: string, content: seq<Node>)

  /** A key that is not quoted and whose text has a dot. */
  predicate Splits(key: Node) {
    key.style == 0 && HasDot(key.value)
  }

  /** The key that takes the place of `key`: its first segment when it splits. */
  function OuterKey(key: Node): Node {
    if Splits(key) then key.(value := Base(key.value)) else key
  }

  /** The value that takes the place of `value`: a copy of `parent` holding the rest of a split key. */
  function OuterValue(parent: Node, key: Node, value: Node): Node {
    if Splits(key) then parent.(content := [key.(value := Rest(key.value)), value]) else value
  }

  /** Nodes plus three times the dots still to be split. */
  function Weight(t: Node): (w: nat)
    ensures w >= 1
    decreases t, 1
  {
    1 + 3 * (if t.style == 0 && !t.kind.Mapping? then Dots(t.value) else 0) + Weights(t.content)
  }

  function Weights(c: seq<Node>): nat
    decreases c, 0
  {
    if c == [] then 0 else Weight(c[0]) + Weights(c[1..])
  }

  /** A key that splits is a leaf; parsers give text to no other nodes. */
  predicate Splittable(key: Node) {
    Splits(key) ==> key.content == [] && !key.kind.Mapping?
  }

  /** Expanding is defined for a mapping only when its keys come with values, and those that split are leaves. */
  predicate Paired(c: seq<Node>) {
    |c| == 0 || (|c| >= 2 && Splittable(c[0]) && Paired(c[2..]))
  }

  /** Index of the first key spelled `key`, or |c|. */
  function FindKey(c: seq<Node>, key: string): (i: nat)
    ensures i <= |c| && (i < |c| ==> i % 2 == 0 && c[i].value == key)
    ensures |c| % 2 == 0 ==> i % 2 == 0
    ensures forall j :: 0 <= j < i && j % 2 == 0 ==> c[j].value != key
  {
    if c == [] || c[0].value == key then 0
    else if |c| == 1 then 1
    else
      var r := FindKey(c[2..], key);
      assert forall j {:trigger c[j]} :: 2 <= j < r + 2 && j % 2 == 0 ==> c[j] == c[2..][j - 2];
      r + 2
  }

  /** One step of merging: `value` joins the value already kept under the same key, or is kept itself. */
  function MergeOne(kept: seq<Node>, key: Node, value: Node): (r: seq<Node>)
    requires |kept| % 2 == 0
    ensures |r| % 2 == 0
  {
    var i := FindKey(kept, key.value);
    if i == |kept| then kept + [key, value]
    else kept[i + 1 := kept[i + 1].(content := kept[i + 1].content + value.content)]
  }

  /** Merging all pairs of `c`, in order, into `kept`. */
  function MergeFrom(kept: seq<Node>, c: seq<Node>): (r: seq<Node>)
    requires |kept| % 2 == 0 && |c| % 2 == 0
    ensures |r| % 2 == 0
    ensures Weights(r) <= Weights(kept) + Weights(c)
    decreases |c|
  {
    if c == [] then kept else
    MergeOneWeight(kept, c[0], c[1]);
    WeightsPair(c);
    MergeFrom(MergeOne(kept, c[0], c[1]), c[2..])
  }

  lemma {:induction false} WeightsConcat(a: seq<Node>, b: seq<Node>)
    ensures Weights(a + b) == Weights(a) + Weights(b)
  {
    if a == [] {
      assert a + b == b;
    } else {
      assert (a + b)[1..] == a[1..] + b;
      WeightsConcat(a[1..], b);
    }
  }

  lemma {:induction false} WeightsUpdate(c: seq<Node>, i: nat, n: Node)
    requires i < |c|
    ensures Weights(c[i := n]) == Weights(c) - Weight(c[i]) + Weight(n)
  {
    if i > 0 {
      WeightsUpdate(c[1..], i - 1, n);
      assert c[i := n][1..] == c[1..][i - 1 := n];
    } else {
      assert c[i := n][1..] == c[1..];
    }
  }

  lemma {:induction false} WeightsPair(c: seq<Node>)
    requires |c| >= 2
    ensures Weights(c) == Weight(c[0]) + Weight(c[1]) + Weights(c[2..])
  {
    assert c[1..][1..] == c[2..];
  }

  lemma {:induction false} AppendedWeight(n: Node, more: seq<Node>)
    ensures Weight(n.(content := n.content + more)) == Weight(n) + Weights(more)
  {
    WeightsConcat(n.content, more);
  }

  lemma MergedWeight(kept: seq<Node>, i: nat, more: seq<Node>)
    requires i < |kept|
    ensures Weights(kept[i := kept[i].(content := kept[i].content + more)]) == Weights(kept) + Weights(more)
  {
    AppendedWeight(kept[i], more);
    WeightsUpdate(kept, i, kept[i].(content := kept[i].content + more));
  }

  lemma {:induction false} MergeOneWeight(kept: seq<Node>, key: Node, value: Node)
    requires |kept| % 2 == 0
    ensures Weights(MergeOne(kept, key, value)) <= Weights(kept) + Weight(key) + Weight(value)
  {
    var i := FindKey(kept, key.value);
    if i == |kept| {
      WeightsConcat(kept, [key, value]);
      assert [key, value][2..] == [];
      WeightsPair([key, value]);
    } else {
      MergedWeight(kept, i + 1, value.content);
      assert Weights(value.content) <= Weight(value);
    }
  }

  lemma {:induction false} SplitWeight(parent: Node, key: Node, value: Node)
    requires parent.kind.Mapping? && Splittable(key)
    ensures Splits(key) ==> Weight(OuterValue(parent, key, value)) < Weight(key) + Weight(value)
    ensures Weight(OuterKey(key)) + Weight(OuterValue(parent, key, value)) <= Weight(key) + Weight(value)
    ensures Splits(key) ==>
      Weight(OuterKey(key)) + Weight(OuterValue(parent, key, value)) < Weight(key) + Weight(value)
  {
    if Splits(key) {
      var inner := key.(value := Rest(key.value));
      WeightsPair([inner, value]);
      assert Dots(Base(key.value)) == 0;
    }
  }

  /** extendNestedObjects: None stands for the runs that index past a mapping's content. */
  function Extend(t: Node): (r: Option<Node>)
    ensures r.Some? ==> Weight(r.value) <= Weight(t)
    ensures r.Some? ==> r.value.kind == t.kind && r.value.style == t.style && r.value.value == t.value
    decreases Weight(t), 2
  {
    var m :- if t.kind.Mapping? then ExtendMap(t) else Some(t);
    var c :- ExtendEach(m.content);
    Some(m.(content := c))
  }

  /** extendMapNode: split and expand every pair, then merge equal keys. */
  function ExtendMap(t: Node): (r: Option<Node>)
    requires t.kind.Mapping?
    ensures r.Some? ==> Weight(r.value) <= Weight(t)
    ensures r.Some? ==> r.value == t.(content := r.value.content)
    decreases Weight(t), 1
  {
    if !Paired(t.content) then None else
    var c :- ExtendPairs(t, t.content);
    Some(t.(content := MergeFrom([], c)))
  }

  function ExtendPairs(parent: Node, c: seq<Node>): (r: Option<seq<Node>>)
    requires parent.kind.Mapping? && Paired(c)
    ensures r.Some? ==> |r.value| == |c| && |c| % 2 == 0 && Weights(r.value) <= Weights(c)
    decreases Weights(c) + 1, 0
  {
    if c == [] then Some([]) else
    SplitWeight(parent, c[0], c[1]);
    WeightsPair(c);
    var v :- Extend(OuterValue(parent, c[0], c[1]));
    var rest :- ExtendPairs(parent, c[2..]);
    var r := [OuterKey(c[0]), v] + rest;
    WeightsPair(r);
    assert r[2..] == rest;
    Some(r)
  }

  function ExtendEach(c: seq<Node>): (r: Option<seq<Node>>)
    ensures r.Some? ==> |r.value| == |c| && Weights(r.value) <= Weights(c)
    decreases Weights(c) + 1, 1
  {
    if c == [] then Some([]) else
    var n :- Extend(c[0]);
    var rest :- ExtendEach(c[1..]);
    Some([n] + rest)
  }
}
