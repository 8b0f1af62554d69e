/** Appending values at a path, on the nodes themselves. */
module AppendNodes {
  import opened Options
  import opened YamlTree
  import opened YamlNodes
  import opened AppendElements

  /** What is appended: the content of the values, or of what a document holds. */
  function Contents(values: Node): Option<seq<Node>> {
    if !values.kind.Document? then Some(values.content)
    else if values.content == [] then None
    else Some(values.content[0].content)
  }

  /** appendElements; what it leaves behind is what `Append` gives when it succeeds. */
  method AppendValues(root: YamlNode, path: seq<string>, values: YamlNode, ghost s: Shape, ghost vs: Shape)
    returns (ok: bool, ghost r: Shape)
    requires s.node == root && Shaped(s) && vs.node == values && Shaped(vs) && Refs(s) !! Refs(vs)
    requires Contents(View(vs)).Some?
    modifies Refs(s)
    ensures r.node == root && Shaped(r)
    ensures forall n | n in Refs(r) :: n in Refs(s) || n in Refs(vs) || fresh(n)
    ensures View(r) == old(Left(View(s), path, Contents(View(vs)).value))
    ensures ok <==> old(Append(View(s), path, Contents(View(vs)).value)).Some?
    decreases |path|, s, 2
  {
    r := s;
    if path == [] {
      r := AppendHere(root, values, s, vs);
      return true, r;
    }
    SameValues(s);
    match root.kind {
      case Document =>
        if |root.content| == 0 {
          return false, r;
        }
        ok, r := AppendBelow(root, 0, path, values, s, vs);
      case Mapping =>
        ok, r := AppendToMapping(root, path, values, s, vs);
      case Sequence =>
        return false, r;
      case _ =>
        return true, r;
    }
  }

  lemma {:induction false} AppendInMapping(t: Node, path: seq<string>, more: seq<Node>, i: nat)
    requires t.kind.Mapping? && path != []
    requires FindKey(t.content, path[0]) == if i < |t.content| then i else |t.content|
    ensures i + 1 < |t.content| ==>
              && (Append(t, path, more).Some? <==> Append(t.content[i + 1], path[1..], more).Some?)
              && Left(t, path, more)
                 == t.(content := t.content[i + 1 := Left(t.content[i + 1], path[1..], more)])
    ensures i < |t.content| <= i + 1 ==> Append(t, path, more) == None && Left(t, path, more) == t
    ensures i >= |t.content| ==>
              && (Append(t, path, more).Some? <==> Append(NewChild(path[0]), path[1..], more).Some?)
              && Left(t, path, more)
                 == t.(content := t.content + [NewKey(path[0]), Left(NewChild(path[0]), path[1..], more)])
  {
  }

  /** The loop over the keys of a mapping. */
  method AppendToMapping(root: YamlNode, path: seq<string>, values: YamlNode, ghost s: Shape, ghost vs: Shape)
    returns (ok: bool, ghost r: Shape)
    requires s.node == root && Shaped(s) && vs.node == values && Shaped(vs) && Refs(s) !! Refs(vs)
    requires Contents(View(vs)).Some? && path != [] && root.kind.Mapping?
    modifies Refs(s)
    ensures r.node == root && Shaped(r)
    ensures forall n | n in Refs(r) :: n in Refs(s) || n in Refs(vs) || fresh(n)
    ensures View(r) == old(Left(View(s), path, Contents(View(vs)).value))
    ensures ok <==> old(Append(View(s), path, Contents(View(vs)).value)).Some?
    decreases |path|, s, 1
  {
    SameValues(s);
    ghost var c := View(s).content;
    var i := 0;
    while i < |root.content| && root.content[i].value != path[0]
      invariant i % 2 == 0 && forall j :: 0 <= j < i && j < |c| && j % 2 == 0 ==> c[j].value != path[0]
    {
      i := i + 2;
    }
    FindsFirst(c, path[0], i);
    AppendInMapping(View(s), path, Contents(View(vs)).value, i);
    if i + 1 < |root.content| {
      ok, r := AppendBelow(root, i + 1, path[1..], values, s, vs);
    } else if i < |root.content| {
      return false, s;
    } else {
      ok, r := AppendNew(root, path, values, s, vs);
    }
  }

  lemma {:induction false} ViewAt(ss: seq<Shape>, i: nat)
    requires i < |ss|
    ensures ViewAll(ss)[i] == View(ss[i])
    decreases |ss|
  {
    if i > 0 {
      ViewAt(ss[1..], i - 1);
    }
  }

  lemma {:induction false} SameValues(s: Shape)
    requires Shaped(s)
    ensures |View(s).content| == |s.node.content|
    ensures forall j :: 0 <= j < |s.node.content| ==>
      View(s).content[j] == View(s.subs[j]) && View(s).content[j].value == s.node.content[j].value
  {
    forall j | 0 <= j < |s.subs| ensures View(s).content[j] == View(s.subs[j]) {
      ViewAt(s.subs, j);
    }
  }

  lemma {:induction false} FindsFirst(c: seq<Node>, key: string, i: nat)
    requires i % 2 == 0 && forall j :: 0 <= j < i && j < |c| && j % 2 == 0 ==> c[j].value != key
    requires i < |c| ==> c[i].value == key
    ensures FindKey(c, key) == if i < |c| then i else |c|
  {
  }

  /** The shapes of what is appended. */
  ghost function ContentsOf(vs: Shape): seq<Shape>
    reads vs.node
  {
    if vs.node.kind.Document? && vs.subs != [] then vs.subs[0].subs else vs.subs
  }

  lemma {:induction false} ContentsAreShaped(vs: Shape)
    requires Shaped(vs) && Contents(View(vs)).Some?
    ensures ShapedAll(ContentsOf(vs)) && RefsOf(ContentsOf(vs)) <= Refs(vs)
    ensures ViewAll(ContentsOf(vs)) == Contents(View(vs)).value
    ensures vs.node.kind.Document? ==> vs.subs != [] && vs.subs[0].node.content == NodesOf(ContentsOf(vs))
  {
    if vs.node.kind.Document? {
      assert vs.subs != [] && vs.subs[0..] == vs.subs;
      ViewSplit(vs.subs, 0);
    }
  }

  method AppendHere(root: YamlNode, values: YamlNode, ghost s: Shape, ghost vs: Shape) returns (ghost r: Shape)
    requires s.node == root && Shaped(s) && vs.node == values && Shaped(vs) && Refs(s) !! Refs(vs)
    requires Contents(View(vs)).Some?
    modifies root
    ensures r.node == root && Shaped(r) && Refs(r) <= Refs(s) + Refs(vs)
    ensures View(r) == old(View(s).(content := View(s).content + Contents(View(vs)).value))
  {
    ContentsAreShaped(vs);
    var contents := if values.kind == Document then values.content[0].content else values.content;
    ghost var subs := ContentsOf(vs);
    r := Link(root, contents, s, subs);
  }

  /** Nodes with shapes `more` join the content of `root`. */
  method Link(root: YamlNode, nodes: seq<YamlNode>, ghost s: Shape, ghost more: seq<Shape>) returns (ghost r: Shape)
    requires s.node == root && Shaped(s) && ShapedAll(more) && nodes == NodesOf(more) && Refs(s) !! RefsOf(more)
    modifies root
    ensures r == Shape(root, s.subs + more) && Shaped(r) && Refs(r) == Refs(s) + RefsOf(more)
    ensures View(r) == old(View(s).(content := View(s).content + ViewAll(more)))
  {
    assert allocated(RefsOf(s.subs));
    assert allocated(RefsOf(more));
    root.content := root.content + nodes;
    Framed(s.subs);
    Framed(more);
    r := Shape(root, s.subs + more);
    NodesConcat(s.subs, more);
    RefsConcat(s.subs, more);
    ShapedConcat(s.subs, more);
    ViewConcat(s.subs, more);
  }

  /** The key is missing: goes on in a new child under it. */
  method AppendNew(root: YamlNode, path: seq<string>, values: YamlNode, ghost s: Shape, ghost vs: Shape)
    returns (ok: bool, ghost r: Shape)
    requires s.node == root && Shaped(s) && vs.node == values && Shaped(vs) && Refs(s) !! Refs(vs)
    requires Contents(View(vs)).Some? && path != []
    modifies Refs(s)
    ensures ok <==> old(Append(NewChild(path[0]), path[1..], Contents(View(vs)).value)).Some?
    ensures r.node == root && Shaped(r)
    ensures forall n | n in Refs(r) :: n in Refs(s) || n in Refs(vs) || fresh(n)
    ensures View(r) == old(View(s).(
      content := View(s).content + [NewKey(path[0]), Left(NewChild(path[0]), path[1..], Contents(View(vs)).value)]))
    decreases |path|, s, 0
  {
    assert allocated(Refs(vs));
    ghost var before, more := View(s).content, Contents(View(vs)).value;
    label Start:
    ghost var t := AddChild(root, path[0], s);
    FramedOne@Start(vs);
    LastChild(t, before, NewKey(path[0]), NewChild(path[0]));
    ok, r := AppendBelow(root, |root.content| - 1, path[1..], values, t, vs);
    LastReplaced(before, NewKey(path[0]), NewChild(path[0]), Left(NewChild(path[0]), path[1..], more));
  }

  lemma {:induction false} LastChild(t: Shape, c: seq<Node>, key: Node, v: Node)
    requires Shaped(t) && View(t).content == c + [key, v]
    ensures |t.subs| == |t.node.content| == |c| + 2 && View(t.subs[|c| + 1]) == v
  {
    SameValues(t);
    assert (c + [key, v])[|c| + 1] == v;
  }

  lemma LastReplaced(c: seq<Node>, key: Node, v: Node, w: Node)
    ensures (c + [key, v])[|c| + 1 := w] == c + [key, w]
  {
  }

  /** A new, empty child under `key`. */
  method AddChild(root: YamlNode, key: string, ghost s: Shape) returns (ghost t: Shape)
    requires s.node == root && Shaped(s)
    modifies root
    ensures t.node == root && Shaped(t) && |t.subs| == |s.subs| + 2
    ensures forall n | n in Refs(t) :: n in Refs(s) || fresh(n)
    ensures View(t) == old(View(s).(content := View(s).content + [NewKey(key), NewChild(key)]))
  {
    assert allocated(Refs(s));
    label Start:
    var keyNode := new YamlNode.Plain(Scalar, key);
    var childNode := new YamlNode.Plain(if key == LIST_KEY then Sequence else Mapping, key);
    ghost var pair := [Shape(keyNode, []), Shape(childNode, [])];
    TwoSplit(pair);
    assert pair[2..] == [];
    FramedOne@Start(s);
    t := Link(root, [keyNode, childNode], s, pair);
  }

  /** Goes on in child `j`, among its siblings. */
  method AppendBelow(root: YamlNode, j: nat, path: seq<string>, values: YamlNode, ghost s: Shape, ghost vs: Shape)
    returns (ok: bool, ghost r: Shape)
    requires s.node == root && Shaped(s) && vs.node == values && Shaped(vs) && Refs(s) !! Refs(vs)
    requires Contents(View(vs)).Some? && j < |s.subs|
    modifies RefsOf(s.subs)
    ensures ok <==> old(Append(View(s.subs[j]), path, Contents(View(vs)).value)).Some?
    ensures r.node == root && Shaped(r)
    ensures forall n | n in Refs(r) :: n in Refs(s) || n in Refs(vs) || fresh(n)
    ensures View(r) == old(View(s).(
      content := View(s).content[j := Left(View(s.subs[j]), path, Contents(View(vs)).value)]))
    decreases |path|, s, 0
  {
    ghost var a, x, b := s.subs[..j], s.subs[j], s.subs[j + 1..];
    Middle(s.subs, j);
    r := s;
    assert allocated(RefsOf(a));
    assert allocated(RefsOf(b));
    ghost var target := Left(View(x), path, Contents(View(vs)).value);
    MiddleUpdate(ViewAll(a), View(x), target, ViewAll(b));
    label Before:
    ghost var x';
    ok, x' := AppendValues(root.content[j], path, values, x, vs);
    Framed@Before(a);
    Framed@Before(b);
    ghost var more := Replaced(s.subs, j, x');
    r := Shape(root, more);
  }
}
