/** Ingest pipelines that refer to one another: what is reachable from where, and when following them ends. */
module Pipelines {
  import opened Json
  import opened Options

  /** A pipeline; a processor may run another pipeline, by name. */
  datatype Pipeline = Pipeline(id: string, body: map<string, Json>, processors: seq<Option<string>>)

  type Lookup = map<string, Pipeline>

  function Names(p: Pipeline): set<string> {
    set o | o in p.processors && o.Some? :: o.value
  }

  /** A way along references, all through pipelines that exist. */
  ghost predicate Path(g: Lookup, p: seq<string>) {
    && p != []
    && (forall i :: 0 <= i < |p| ==> p[i] in g)
    && (forall i :: 0 < i < |p| ==> p[i] in Names(g[p[i - 1]]))
  }

  predicate Distinct(p: seq<string>) {
    forall i, j :: 0 <= i < j < |p| ==> p[i] != p[j]
  }

  ghost predicate Joins(g: Lookup, a: string, b: string, p: seq<string>) {
    Path(g, p) && p[0] == a && p[|p| - 1] == b
  }

  ghost predicate Reaches(g: Lookup, a: string, b: string) {
    exists p :: Joins(g, a, b, p)
  }

  /** No way that goes on from `trail` through one of `names` comes by a pipeline twice. */
  ghost predicate NoLoop(g: Lookup, trail: seq<string>, names: set<string>) {
    forall p :: Path(g, trail + p) && p != [] && p[0] in names ==> Distinct(trail + p)
  }

  lemma ReachesFrom(g: Lookup, a: string, b: string)
    requires a in g
    ensures Reaches(g, a, b) <==> b == a || exists n | n in Names(g[a]) :: Reaches(g, n, b)
  {
    if Reaches(g, a, b) && b != a {
      var p :| Joins(g, a, b, p);
      assert Joins(g, p[1], b, p[1..]);
    }
    if b == a {
      assert Joins(g, a, b, [a]);
    }
    if n :| n in Names(g[a]) && Reaches(g, n, b) {
      var p :| Joins(g, n, b, p);
      assert Joins(g, a, b, [a] + p);
    }
  }

  /** Where a way can be followed, it can be followed one pipeline further. */
  lemma NoLoopOnward(g: Lookup, trail: seq<string>, names: set<string>, n: string)
    requires NoLoop(g, trail, names) && n in names && n in g
    ensures NoLoop(g, trail + [n], Names(g[n]))
  {
    forall p | Path(g, trail + [n] + p) && p != [] && p[0] in Names(g[n]) ensures Distinct(trail + [n] + p) {
      assert trail + [n] + p == trail + ([n] + p);
    }
  }

  lemma OneFurther(g: Lookup, trail: seq<string>, n: string)
    requires n in g && (trail == [] || (Path(g, trail) && n in Names(g[trail[|trail| - 1]])))
    ensures Path(g, trail + [n])
  {
  }

  /** A way without repetition is no longer than there are pipelines. */
  lemma {:induction false} DistinctIsShort(p: seq<string>, keys: set<string>)
    requires Distinct(p) && forall i :: 0 <= i < |p| ==> p[i] in keys
    ensures |p| <= |keys|
    decreases |p|
  {
    if p != [] {
      DistinctIsShort(p[1..], keys - {p[0]});
    }
  }

  // ----- When following references ends

  /** Following references from `names` ends within `depth` levels. */
  ghost predicate EndsWithin(g: Lookup, names: set<string>, depth: nat)
    decreases depth
  {
    depth > 0 && forall n | n in names && n in g :: EndsWithin(g, Names(g[n]), depth - 1)
  }

  lemma {:induction false} EndsWithoutLoops(g: Lookup, trail: seq<string>, names: set<string>)
    requires NoLoop(g, trail, names) && |trail| <= |g|
    requires trail == [] || (Path(g, trail) && names <= Names(g[trail[|trail| - 1]]))
    ensures EndsWithin(g, names, |g| + 1 - |trail|)
    decreases |g| - |trail|
  {
    forall n | n in names && n in g ensures |trail| < |g| && EndsWithin(g, Names(g[n]), |g| - |trail|) {
      OneFurther(g, trail, n);
      assert (trail + [n])[|trail|] == n;
      DistinctIsShort(trail + [n], g.Keys);
      NoLoopOnward(g, trail, names, n);
      EndsWithoutLoops(g, trail + [n], Names(g[n]));
    }
  }

  lemma {:induction false} PathsEnd(g: Lookup, names: set<string>, depth: nat, p: seq<string>)
    requires EndsWithin(g, names, depth) && Path(g, p) && p[0] in names
    ensures |p| < depth
    decreases depth
  {
    if |p| > 1 {
      PathsEnd(g, Names(g[p[0]]), depth - 1, p[1..]);
    } else {
      assert EndsWithin(g, Names(g[p[0]]), depth - 1);
    }
  }

  /** A way that comes by a pipeline twice can be made as long as one likes. */
  lemma {:induction false} Longer(g: Lookup, p: seq<string>, i: nat, j: nat, length: nat) returns (q: seq<string>)
    requires Path(g, p) && i < j < |p| && p[i] == p[j]
    ensures Path(g, q) && q[0] == p[0] && |q| >= length
    decreases length - |p|
  {
    q := p;
    if |p| < length {
      var r := p[..j] + p[i..];
      assert forall k :: j <= k < |r| ==> r[k] == p[k - j + i];
      forall k | 0 < k < |r| ensures r[k] in Names(g[r[k - 1]]) {
        if k == j {
          assert r[k] == p[j] && r[k - 1] == p[j - 1];
        }
      }
      q := Longer(g, r, i, j, length);
    }
  }

  /** Following references ends exactly when no way comes by a pipeline twice. */
  lemma {:induction false} EndsExactlyWithoutLoops(g: Lookup, names: set<string>)
    ensures (exists depth :: EndsWithin(g, names, depth)) <==> NoLoop(g, [], names)
  {
    if NoLoop(g, [], names) {
      EndsWithoutLoops(g, [], names);
      assert EndsWithin(g, names, |g| + 1);
    }
    if depth :| EndsWithin(g, names, depth) {
      EndingHasNoLoop(g, names, depth);
    }
  }

  /** A pipeline that refers to itself. */
  function SelfReference(a: string, body: map<string, Json>): Lookup {
    map[a := Pipeline(a, body, [Some(a)])]
  }

  lemma {:induction false} SelfReferenceNeverEnds(a: string, body: map<string, Json>, depth: nat)
    ensures !EndsWithin(SelfReference(a, body), {a}, depth)
    decreases depth
  {
    if depth > 0 {
      var p := SelfReference(a, body)[a];
      assert Names(p) == {a} by {
        assert Some(a) in p.processors;
      }
      SelfReferenceNeverEnds(a, body, depth - 1);
    }
  }

  lemma {:induction false} EndingHasNoLoop(g: Lookup, names: set<string>, depth: nat)
    requires EndsWithin(g, names, depth)
    ensures NoLoop(g, [], names)
  {
    forall p | Path(g, [] + p) && p != [] && p[0] in names ensures Distinct([] + p) {
      assert [] + p == p;
      if i, j :| 0 <= i < j < |p| && p[i] == p[j] {
        var q := Longer(g, p, i, j, depth);
        PathsEnd(g, names, depth, q);
      }
    }
  }
}
