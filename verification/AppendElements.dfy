/** Appending values to the node at a path of keys, creating what is missing on the way. */
module AppendElements {
  import opened Options
  import opened YamlTree

  const LIST_KEY := "dynamic_templates"

  /** newYamlNode */
  function NewKey(key: string): Node {
    Node(Scalar, 0, key, [])
  }

  function NewChild(key: string): Node {
    Node(if key == LIST_KEY then Sequence else Mapping, 0, key, [])
  }

  /** appendElements, with the nodes to append. None stands for an error or a panic: indexing a list always ends so. */
  function Append(root: Node, path: seq<string>, more: seq<Node>): Option<Node>
    decreases |path|, root
  {
    if path == [] then Some(root.(content := root.content + more)) else
    match root.kind
    case Document =>
      if root.content == [] then None else
      var r :- Append(root.content[0], path, more);
      Some(root.(content := root.content[0 := r]))
    case Mapping =>
      var i := FindKey(root.content, path[0]);
      if i == |root.content| then
        var r :- Append(NewChild(path[0]), path[1..], more);
        Some(root.(content := root.content + [NewKey(path[0]), r]))
      else if i + 1 == |root.content| then None
      else
        var r :- Append(root.content[i + 1], path[1..], more);
        Some(root.(content := root.content[i + 1 := r]))
    case Sequence => None
    case _ => Some(root)
  }

  /** The tree that is left behind, also when it fails: missing nodes stay that have been created by then. */
  function Left(root: Node, path: seq<string>, more: seq<Node>): Node
    decreases |path|, root
  {
    if path == [] then root.(content := root.content + more) else
    match root.kind
    case Document =>
      if root.content == [] then root
      else root.(content := root.content[0 := Left(root.content[0], path, more)])
    case Mapping =>
      var i := FindKey(root.content, path[0]);
      if i == |root.content| then
        root.(content := root.content + [NewKey(path[0]), Left(NewChild(path[0]), path[1..], more)])
      else if i + 1 == |root.content| then root
      else root.(content := root.content[i + 1 := Left(root.content[i + 1], path[1..], more)])
    case Sequence => root
    case _ => root
  }

  lemma {:induction false} LeftBySuccess(root: Node, path: seq<string>, more: seq<Node>)
    ensures Append(root, path, more).Some? ==> Append(root, path, more) == Some(Left(root, path, more))
    decreases |path|, root
  {
    if path != [] {
      if root.kind.Document? && root.content != [] {
        LeftBySuccess(root.content[0], path, more);
      } else if root.kind.Mapping? {
        var i := FindKey(root.content, path[0]);
        if i == |root.content| {
          LeftBySuccess(NewChild(path[0]), path[1..], more);
        } else if i + 1 < |root.content| {
          LeftBySuccess(root.content[i + 1], path[1..], more);
        }
      }
    }
  }

  /** The node at a path of keys. */
  function At(root: Node, path: seq<string>): Option<Node>
    decreases |path|, root
  {
    if path == [] then Some(root)
    else if root.kind.Document? && root.content != [] then At(root.content[0], path)
    else if root.kind.Mapping? then
      var i := FindKey(root.content, path[0]);
      if i + 1 < |root.content| then At(root.content[i + 1], path[1..]) else None
    else None
  }

  /** All mappings on the way hold keys with values. */
  predicate Even(root: Node, path: seq<string>)
    decreases |path|, root
  {
    path == [] ||
    if root.kind.Document? then root.content != [] && Even(root.content[0], path)
    else root.kind.Mapping? ==>
      && |root.content| % 2 == 0
      && var i := FindKey(root.content, path[0]);
         i < |root.content| ==> Even(root.content[i + 1], path[1..])
  }

  /** Only mappings are on the way, and what is missing can be created as mappings. */
  predicate Open(root: Node, path: seq<string>)
    decreases |path|, root
  {
    path == [] ||
    if root.kind.Document? then root.content != [] && Open(root.content[0], path)
    else
      && root.kind.Mapping?
      && var i := FindKey(root.content, path[0]);
         if i + 1 < |root.content| then Open(root.content[i + 1], path[1..])
         else LIST_KEY !in path[..|path| - 1]
  }

  // ----- Where things are

  lemma {:induction false} FindKeyLater(c: seq<Node>, key: string, more: seq<Node>)
    requires |c| % 2 == 0
    ensures FindKey(c + more, key) == if FindKey(c, key) < |c| then FindKey(c, key) else |c| + FindKey(more, key)
    decreases |c|
  {
    if c == [] {
      assert c + more == more;
    } else {
      assert (c + more)[2..] == c[2..] + more;
      FindKeyLater(c[2..], key, more);
    }
  }

  lemma {:induction false} FindKeyBeside(c: seq<Node>, key: string, j: nat, n: Node)
    requires |c| % 2 == 0 && j < |c| && j % 2 == 1
    ensures FindKey(c[j := n], key) == FindKey(c, key)
    decreases |c|
  {
    if c[0].value != key {
      if j == 1 {
        assert c[j := n][2..] == c[2..];
      } else {
        assert c[j := n][2..] == c[2..][j - 2 := n];
        FindKeyBeside(c[2..], key, j - 2, n);
      }
    }
  }

  /** Finding the way in a mapping after one of its values was replaced. */
  lemma AtReplaced(root: Node, i: nat, n: Node, q: seq<string>)
    requires root.kind.Mapping? && |root.content| % 2 == 0 && i < |root.content| && i % 2 == 0 && q != []
    ensures At(root.(content := root.content[i + 1 := n]), q)
         == if FindKey(root.content, q[0]) == i then At(n, q[1..]) else At(root, q)
  {
    FindKeyBeside(root.content, q[0], i + 1, n);
  }

  /** Finding the way in a mapping after a key that was missing was added. */
  lemma {:induction false} AtAdded(root: Node, key: string, n: Node, q: seq<string>)
    requires root.kind.Mapping? && |root.content| % 2 == 0 && FindKey(root.content, key) == |root.content| && q != []
    ensures At(root.(content := root.content + [NewKey(key), n]), q)
         == if q[0] == key then At(n, q[1..]) else At(root, q)
  {
    var c, pair := root.content, [NewKey(key), n];
    FindKeyLater(c, q[0], pair);
    FindInPair(key, n, q[0]);
    if q[0] == key {
      assert (c + pair)[|c| + 1] == n;
    } else if FindKey(c, q[0]) < |c| {
      assert (c + pair)[FindKey(c, q[0]) + 1] == c[FindKey(c, q[0]) + 1];
    }
  }

  lemma {:induction false} FindInPair(key: string, n: Node, name: string)
    ensures FindKey([NewKey(key), n], name) == if name == key then 0 else 2
  {
    assert [NewKey(key), n][2..] == [];
  }

  /** What is at the path once the missing nodes are created. */
  function Target(root: Node, path: seq<string>): Node {
    match At(root, path)
    case Some(n) => n
    case None => if path == [] then root else NewChild(path[|path| - 1])
  }

  lemma {:induction false} Created(path: seq<string>, key: string, more: seq<Node>)
    requires LIST_KEY !in ([key] + path)[..|path|]
    ensures Append(NewChild(key), path, more).Some?
    ensures var n := if path == [] then NewChild(key) else NewChild(path[|path| - 1]);
            At(Append(NewChild(key), path, more).value, path) == Some(n.(content := more))
    decreases |path|
  {
    if path == [] {
      assert [] + more == more;
    } else {
      assert ([key] + path)[0] == key;
      assert forall i :: 0 <= i < |path| - 1 ==> ([path[0]] + path[1..])[i] == ([key] + path)[i + 1];
      Created(path[1..], path[0], more);
    }
  }

  /** On an open way the values end up after what the node at the path holds; otherwise nothing changes or it fails. */
  lemma {:induction false} AppendsAtPath(root: Node, path: seq<string>, more: seq<Node>)
    requires Even(root, path)
    ensures var r := Append(root, path, more);
            if Open(root, path) then
              && r.Some?
              && At(r.value, path) == Some(Target(root, path).(content := Target(root, path).content + more))
            else r == None || r == Some(root)
    decreases |path|, root
  {
    if path != [] {
      if root.kind.Document? {
        AppendsAtPath(root.content[0], path, more);
        assert root.content[0 := root.content[0]] == root.content;
      } else if root.kind.Mapping? {
        var i := FindKey(root.content, path[0]);
        if i < |root.content| {
          AppendsAtPath(root.content[i + 1], path[1..], more);
          assert root.content[i + 1 := root.content[i + 1]] == root.content;
          var r := Append(root.content[i + 1], path[1..], more);
          if r.Some? {
            AtReplaced(root, i, r.value, path);
          }
        } else {
          CreatesAtPath(root, path, more);
          assert [] + more == more;
        }
      }
    }
  }

  /** What a document holds, for other nodes the node itself. */
  function Inside(n: Node): Node {
    if n.kind.Document? && n.content != [] then Inside(n.content[0]) else n
  }

  /** After `n` keys the way comes to a scalar or an alias. */
  predicate ValueOnTheWay(root: Node, path: seq<string>, n: nat) {
    && n < |path|
    && var u := At(root, path[..n]);
    u.Some? && Inside(u.value).kind in {Scalar, Alias}
  }

  /** Where the way is not open, nothing happens if it comes to a scalar or an alias, and else appending fails. */
  lemma {:induction false} StopsExactly(root: Node, path: seq<string>, more: seq<Node>)
    requires Even(root, path) && !Open(root, path)
    ensures Append(root, path, more) == if exists n :: ValueOnTheWay(root, path, n) then Some(root) else None
    decreases |path|, root
  {
    var i := if root.kind.Mapping? then FindKey(root.content, path[0]) else 0;
    if root.kind.Document? {
      StopsExactly(root.content[0], path, more);
      assert root.content[0 := root.content[0]] == root.content;
      forall n: nat ensures ValueOnTheWay(root, path, n) <==> ValueOnTheWay(root.content[0], path, n) {
      }
    } else if root.kind.Mapping? && i < |root.content| {
      StopsExactly(root.content[i + 1], path[1..], more);
      assert root.content[i + 1 := root.content[i + 1]] == root.content;
      forall n: nat | n < |path|
        ensures ValueOnTheWay(root, path, n) <==> n > 0 && ValueOnTheWay(root.content[i + 1], path[1..], n - 1)
      {
        assert n > 0 ==> path[..n][1..] == path[1..][..n - 1];
      }
      var child, rest := root.content[i + 1], path[1..];
      if n: nat :| ValueOnTheWay(child, rest, n) {
        assert ValueOnTheWay(root, path, n + 1);
      }
    } else if root.kind.Mapping? {
      CreatesAtPath(root, path, more);
      forall n: nat ensures !ValueOnTheWay(root, path, n) {
      }
    } else if root.kind.Sequence? {
      forall n: nat ensures !ValueOnTheWay(root, path, n) {
      }
    } else {
      assert ValueOnTheWay(root, path, 0);
    }
  }

  lemma {:induction false} CreatesAtPath(root: Node, path: seq<string>, more: seq<Node>)
    requires path != [] && root.kind.Mapping? && |root.content| % 2 == 0
    requires FindKey(root.content, path[0]) == |root.content|
    ensures var r := Append(root, path, more);
            if LIST_KEY in path[..|path| - 1] then r == None
            else r.Some? && At(r.value, path) == Some(NewChild(path[|path| - 1]).(content := more))
  {
    assert [path[0]] + path[1..] == path;
    if LIST_KEY in path[..|path| - 1] {
      CreatingFails(path[1..], path[0], more);
    } else {
      Created(path[1..], path[0], more);
      AtAdded(root, path[0], Append(NewChild(path[0]), path[1..], more).value, path);
    }
  }

  lemma {:induction false} CreatingFails(path: seq<string>, key: string, more: seq<Node>)
    requires LIST_KEY in ([key] + path)[..|path|]
    ensures Append(NewChild(key), path, more) == None
    decreases |path|
  {
    if key != LIST_KEY {
      assert ([path[0]] + path[1..])[..|path| - 1] == ([key] + path)[..|path|][1..];
      CreatingFails(path[1..], path[0], more);
    }
  }

  lemma {:induction false} NodeStays(root: Node, path: seq<string>, more: seq<Node>)
    requires Append(root, path, more).Some?
    ensures var u := Append(root, path, more).value; u.(content := root.content) == root
    decreases |path|, root
  {
  }

  /** A node that is created, at the path or on the way to it: the one named `dynamic_templates` is a list. */
  lemma {:induction false} CreatedNode(root: Node, path: seq<string>, more: seq<Node>, n: nat)
    requires Even(root, path) && Open(root, path) && 0 < n <= |path| && At(root, path[..n]).None?
    ensures Append(root, path, more).Some?
    ensures var u, name := At(Append(root, path, more).value, path[..n]), path[n - 1];
            && u.Some? && u.value.value == name && u.value.style == 0
            && u.value.kind == (if name == "dynamic_templates" then Sequence else Mapping)
            && if n == |path| then u.value.content == more
               else Keys(u.value.content) == [Node(Scalar, 0, path[n], [])]
    decreases |path|, root
  {
    AppendsAtPath(root, path, more);
    if root.kind.Document? {
      CreatedNode(root.content[0], path, more, n);
    } else {
      var i, rest := FindKey(root.content, path[0]), path[1..];
      assert path[..n][1..] == rest[..n - 1];
      if i < |root.content| {
        CreatedNode(root.content[i + 1], rest, more, n - 1);
        AtReplaced(root, i, Append(root.content[i + 1], rest, more).value, path[..n]);
      } else {
        CreatedBelow(root, path, more, n);
      }
    }
  }

  lemma {:induction false} CreatedBelow(root: Node, path: seq<string>, more: seq<Node>, n: nat)
    requires Open(root, path) && 0 < n <= |path| && root.kind.Mapping? && |root.content| % 2 == 0
    requires FindKey(root.content, path[0]) == |root.content| && Append(root, path, more).Some?
    ensures var u, name := At(Append(root, path, more).value, path[..n]), path[n - 1];
            && u.Some? && u.value.value == name && u.value.style == 0
            && u.value.kind == (if name == "dynamic_templates" then Sequence else Mapping)
            && if n == |path| then u.value.content == more
               else Keys(u.value.content) == [Node(Scalar, 0, path[n], [])]
    decreases |path|, root, 0
  {
    var rest, child := path[1..], NewChild(path[0]);
    assert path[..n][1..] == rest[..n - 1];
    var u := Append(child, rest, more).value;
    AtAdded(root, path[0], u, path[..n]);
    NodeStays(child, rest, more);
    if n == 1 {
      assert [] + more == more;
      if n < |path| {
        assert path[0] in path[..|path| - 1];
        KeysAtTop(child, rest, more);
        NothingInNew(path[0], [rest[0]]);
      }
    } else {
      assert path[0] in path[..|path| - 1];
      assert rest[..|rest| - 1] == path[..|path| - 1][1..];
      NothingInNew(path[0], rest[..n - 1]);
      CreatedNode(child, rest, more, n - 1);
    }
  }

  // ----- What stays as it was

  predicate Unrelated(p: seq<string>, q: seq<string>) {
    !(p <= q) && !(q <= p)
  }

  lemma UnrelatedBelow(p: seq<string>, q: seq<string>)
    requires p != [] && q != [] && Unrelated(p, q) && p[0] == q[0]
    ensures Unrelated(p[1..], q[1..])
  {
  }

  /** What is found elsewhere is what was found there, also after a failure. */
  lemma {:induction false} LeavesTheRest(root: Node, path: seq<string>, more: seq<Node>, q: seq<string>)
    requires Even(root, path) && Unrelated(path, q)
    ensures At(Left(root, path, more), q) == At(root, q)
    decreases |path|, root
  {
    if root.kind.Document? {
      LeavesTheRest(root.content[0], path, more, q);
    } else if root.kind.Mapping? {
      var i := FindKey(root.content, path[0]);
      if q[0] == path[0] {
        UnrelatedBelow(path, q);
      }
      if i < |root.content| {
        AtReplaced(root, i, Left(root.content[i + 1], path[1..], more), q);
        if q[0] == path[0] {
          LeavesTheRest(root.content[i + 1], path[1..], more, q[1..]);
        }
      } else {
        AtAdded(root, path[0], Left(NewChild(path[0]), path[1..], more), q);
        if q[0] == path[0] {
          LeavesTheRest(NewChild(path[0]), path[1..], more, q[1..]);
          NothingInNew(path[0], q[1..]);
        }
      }
    }
  }

  lemma {:induction false} AppendsNowhereElse(root: Node, path: seq<string>, more: seq<Node>, q: seq<string>)
    requires Even(root, path) && Append(root, path, more).Some? && Unrelated(path, q)
    ensures At(Append(root, path, more).value, q) == At(root, q)
  {
    LeftBySuccess(root, path, more);
    LeavesTheRest(root, path, more, q);
  }

  lemma {:induction false} NothingInNew(key: string, q: seq<string>)
    requires q != []
    ensures At(NewChild(key), q) == None
  {
  }

  /** The key nodes of a mapping, in order. */
  function Keys(c: seq<Node>): seq<Node> {
    if |c| < 2 then [] else [c[0]] + Keys(c[2..])
  }

  lemma {:induction false} KeysLater(c: seq<Node>, more: seq<Node>)
    requires |c| % 2 == 0
    ensures Keys(c + more) == Keys(c) + Keys(more)
    decreases |c|
  {
    if c == [] {
      assert c + more == more;
    } else {
      assert (c + more)[2..] == c[2..] + more;
      KeysLater(c[2..], more);
    }
  }

  lemma {:induction false} KeysBeside(c: seq<Node>, j: nat, n: Node)
    requires |c| % 2 == 0 && j < |c| && j % 2 == 1
    ensures Keys(c[j := n]) == Keys(c)
    decreases |c|
  {
    if j == 1 {
      assert c[j := n][2..] == c[2..];
    } else {
      assert c[j := n][2..] == c[2..][j - 2 := n];
      KeysBeside(c[2..], j - 2, n);
    }
  }

  /** The same mapping, as far as its keys go, with the key added last if it was missing. */
  predicate WithKey(n: Node, key: string, u: Node) {
    && u.kind == n.kind && u.style == n.style && u.value == n.value
    && Keys(u.content) == Keys(n.content) + if At(n, [key]).Some? then [] else [Node(Scalar, 0, key, [])]
  }

  /** On the way, a mapping keeps its keys and their order; a key that is missing comes last. */
  lemma {:induction false} KeysOnTheWay(root: Node, path: seq<string>, more: seq<Node>, q: seq<string>)
    requires Even(root, path) && Append(root, path, more).Some? && q < path
    requires At(root, q).Some? && At(root, q).value.kind.Mapping?
    ensures At(Append(root, path, more).value, q).Some?
    ensures WithKey(At(root, q).value, path[|q|], At(Append(root, path, more).value, q).value)
    decreases |path|, root
  {
    if root.kind.Document? {
      KeysOnTheWay(root.content[0], path, more, q);
    } else if q == [] {
      KeysAtTop(root, path, more);
    } else {
      var i := FindKey(root.content, path[0]);
      assert path[0] == q[0] && q[1..] < path[1..] && path[1..][|q| - 1] == path[|q|];
      AtReplaced(root, i, Append(root.content[i + 1], path[1..], more).value, q);
      KeysOnTheWay(root.content[i + 1], path[1..], more, q[1..]);
    }
  }

  lemma {:induction false} KeysAtTop(root: Node, path: seq<string>, more: seq<Node>)
    requires root.kind.Mapping? && path != [] && Even(root, path) && Append(root, path, more).Some?
    ensures WithKey(root, path[0], Append(root, path, more).value)
  {
    var i := FindKey(root.content, path[0]);
    assert [path[0]][1..] == [];
    if i < |root.content| {
      KeysBeside(root.content, i + 1, Append(root.content[i + 1], path[1..], more).value);
    } else {
      var pair := [NewKey(path[0]), Append(NewChild(path[0]), path[1..], more).value];
      assert pair[2..] == [];
      KeysLater(root.content, pair);
    }
  }

  /** Appending twice at one path is appending once, one after the other. */
  lemma {:induction false} AppendsTwice(root: Node, path: seq<string>, a: seq<Node>, b: seq<Node>)
    requires Even(root, path) && Append(root, path, a).Some?
    ensures Append(Append(root, path, a).value, path, b) == Append(root, path, a + b)
    decreases |path|, root
  {
    var u := Append(root, path, a).value;
    if path == [] {
      assert (root.content + a) + b == root.content + (a + b);
    } else if root.kind.Document? {
      AppendsTwice(root.content[0], path, a, b);
      ReplacedTwice(root.content, 0, u.content[0]);
    } else if root.kind.Mapping? {
      var i := FindKey(root.content, path[0]);
      if i < |root.content| {
        AppendsTwice(root.content[i + 1], path[1..], a, b);
        AppendsToReplaced(root, i, path, u.content[i + 1], b);
      } else {
        AppendsTwice(NewChild(path[0]), path[1..], a, b);
        AppendsToAdded(root, path, u.content[i + 1], b);
      }
    }
  }

  lemma ReplacedTwice(c: seq<Node>, j: nat, n: Node)
    requires j < |c|
    ensures forall m {:trigger c[j := m]} :: c[j := n][j := m] == c[j := m]
  {
  }

  lemma {:induction false} AppendsToReplaced(root: Node, i: nat, path: seq<string>, n: Node, b: seq<Node>)
    requires root.kind.Mapping? && |root.content| % 2 == 0
    requires path != [] && i == FindKey(root.content, path[0]) < |root.content|
    ensures var r := Append(n, path[1..], b);
            Append(root.(content := root.content[i + 1 := n]), path, b)
              == if r.None? then None else Some(root.(content := root.content[i + 1 := r.value]))
  {
    FindKeyBeside(root.content, path[0], i + 1, n);
    ReplacedTwice(root.content, i + 1, n);
  }

  lemma {:induction false} AppendsToAdded(root: Node, path: seq<string>, n: Node, b: seq<Node>)
    requires root.kind.Mapping? && |root.content| % 2 == 0
    requires path != [] && FindKey(root.content, path[0]) == |root.content|
    ensures var key, r := NewKey(path[0]), Append(n, path[1..], b);
            Append(root.(content := root.content + [key, n]), path, b)
              == if r.None? then None else Some(root.(content := root.content + [key, r.value]))
  {
    var c := root.content + [NewKey(path[0]), n];
    FindKeyLater(root.content, path[0], [NewKey(path[0]), n]);
    var r := Append(n, path[1..], b);
    if r.Some? {
      assert c[|root.content| + 1 := r.value] == root.content + [NewKey(path[0]), r.value];
    }
  }
}