/** The same maps by reference: looking up, putting, deleting and merging in place. */
module MapNodes {
  import opened DottedKeys
  import opened Options
  import opened Json
  import opened MapPlaces
  import opened MapStr
  import opened DeepUpdate

  /** A map on the heap. */
  class MapRef {
    var entries: map<string, Value>

    constructor Empty()
      ensures entries == map[]
    {
      entries := map[];
    }
  }

  /** An entry refers to another map or holds some other value. */
  datatype Value = Plain(value: Json) | Ref(target: MapRef)

  // ----- The tree that maps form

  /** The maps of a tree, how they refer to one another, and a set that holds them all. */
  datatype Shape = Leaf | Tree(node: MapRef, subs: map<string, Shape>, refs: set<MapRef>)

  ghost function Refs(s: Shape): set<MapRef> {
    if s.Leaf? then {} else s.refs
  }

  /** The value is as the shape says, and no map is reached twice. */
  ghost predicate Fits(v: Value, s: Shape)
    reads Refs(s)
    decreases s
  {
    if s.Leaf? then v.Plain? && !v.value.Object? else
    && v == Ref(s.node) && s.node in s.refs && s.node.entries.Keys == s.subs.Keys
    && (forall k | k in s.subs :: Refs(s.subs[k]) <= s.refs - {s.node} && Fits(s.node.entries[k], s.subs[k]))
    && (forall j, k | j in s.subs && k in s.subs && j != k :: Refs(s.subs[j]) !! Refs(s.subs[k]))
  }

  ghost predicate FitsAll(entries: map<string, Value>, subs: map<string, Shape>, refs: set<MapRef>)
    reads refs
  {
    && entries.Keys == subs.Keys
    && (forall k | k in subs :: Refs(subs[k]) <= refs && Fits(entries[k], subs[k]))
    && (forall j, k | j in subs && k in subs && j != k :: Refs(subs[j]) !! Refs(subs[k]))
  }

  ghost predicate Shaped(s: Shape)
    reads Refs(s)
  {
    s.Tree? && s.node in s.refs && FitsAll(s.node.entries, s.subs, s.refs - {s.node})
  }

  lemma {:induction false} FitsTree(v: Value, s: Shape)
    requires s.Tree?
    ensures Fits(v, s) <==> v == Ref(s.node) && Shaped(s)
  {
  }

  /** What becomes of other maps does not concern a tree. */
  twostate lemma Framed(s: Shape)
    requires old(Shaped(s)) && forall n | n in Refs(s) :: old(allocated(n)) && unchanged(n)
    ensures Shaped(s) && View(s) == old(View(s))
  {
  }

  twostate lemma FramedHop(h: Hop, new target: MapRef)
    requires old(allocated(target)) && old(Leads(h, target))
    requires forall n | n in h.refs :: old(allocated(n)) && unchanged(n)
    ensures Leads(h, target) && Others(h, target) == old(Others(h, target))
  {
  }

  twostate lemma FramedValue(new v: Value, s: Shape)
    requires old(allocated(v)) && old(Fits(v, s)) && forall n | n in Refs(s) :: old(allocated(n)) && unchanged(n)
    ensures Fits(v, s) && ViewValue(v, s) == old(ViewValue(v, s))
  {
  }

  /** The value that is stood for. */
  ghost function ViewValue(v: Value, s: Shape): Json
    requires Fits(v, s)
    reads Refs(s)
    decreases s
  {
    if s.Leaf? then v.value
    else Object(map k | k in s.subs :: ViewValue(s.node.entries[k], s.subs[k]))
  }

  ghost function ViewAll(entries: map<string, Value>, subs: map<string, Shape>, refs: set<MapRef>): Fields
    requires FitsAll(entries, subs, refs)
    reads refs
  {
    map k | k in subs :: ViewValue(entries[k], subs[k])
  }

  /** The nested map that is stood for. */
  ghost function View(s: Shape): Fields
    requires Shaped(s)
    reads Refs(s)
  {
    ViewAll(s.node.entries, s.subs, s.refs - {s.node})
  }

  lemma {:induction false} ViewTree(v: Value, s: Shape)
    requires s.Tree? && Fits(v, s)
    ensures Shaped(s) && ViewValue(v, s) == Object(View(s))
  {
  }

  // ----- The way from a map down to one inside it

  /** A map, the key that was followed from it, and the rest of what it holds. */
  datatype Hop = Hop(node: MapRef, key: string, others: map<string, Shape>, refs: set<MapRef>)

  /** The tree around `cur`; the last hop taken comes first. */
  ghost function Build(hops: seq<Hop>, cur: Shape): (s: Shape)
    ensures cur.Tree? ==> s.Tree? && s.node == if hops == [] then cur.node else hops[|hops| - 1].node
    decreases |hops|
  {
    if hops == [] then cur else Build(hops[1..], Step(hops[0], cur))
  }

  ghost function Step(h: Hop, cur: Shape): Shape {
    Tree(h.node, h.others[h.key := cur], h.refs + Refs(cur))
  }

  ghost function HopRefs(hops: seq<Hop>): set<MapRef>
    decreases |hops|
  {
    if hops == [] then {} else hops[0].refs + HopRefs(hops[1..])
  }

  /** The hop leads to `target`. */
  ghost predicate Leads(h: Hop, target: MapRef)
    reads h.refs
  {
    && h.node in h.refs && h.key in h.node.entries && h.node.entries[h.key] == Ref(target)
    && FitsAll(h.node.entries - {h.key}, h.others, h.refs - {h.node})
  }

  ghost predicate LeadTo(hops: seq<Hop>, target: MapRef)
    reads HopRefs(hops)
    decreases |hops|
  {
    hops == [] || (Leads(hops[0], target) && hops[0].refs !! HopRefs(hops[1..]) && LeadTo(hops[1..], hops[0].node))
  }

  /** What the hops leave out: each map without the key followed, and that key. */
  ghost function Around(hops: seq<Hop>, target: MapRef): seq<(Fields, string)>
    requires LeadTo(hops, target)
    reads HopRefs(hops)
    decreases |hops|
  {
    if hops == [] then [] else [(Others(hops[0], target), hops[0].key)] + Around(hops[1..], hops[0].node)
  }

  ghost function Others(h: Hop, target: MapRef): Fields
    requires Leads(h, target)
    reads h.refs
  {
    ViewAll(h.node.entries - {h.key}, h.others, h.refs - {h.node})
  }

  /** The nested map with `m` where the hops lead. */
  function Plug(around: seq<(Fields, string)>, m: Fields): Fields
    decreases |around|
  {
    if around == [] then m else Plug(around[1..], around[0].0[around[0].1 := Object(m)])
  }

  function PlugResult(around: seq<(Fields, string)>, r: Result<Fields>): Result<Fields> {
    match r
    case Ok(m) => Ok(Plug(around, m))
    case Err(e) => Err(e)
  }

  /** One map, from the entry under the key followed and the others. */
  lemma StepIsShaped(h: Hop, cur: Shape)
    requires Shaped(cur) && Leads(h, cur.node) && h.refs !! Refs(cur)
    ensures Shaped(Step(h, cur)) && View(Step(h, cur)) == Others(h, cur.node)[h.key := Object(View(cur))]
  {
    FitsTree(h.node.entries[h.key], cur);
    ViewTree(h.node.entries[h.key], cur);
    assert h.node.entries == (h.node.entries - {h.key})[h.key := Ref(cur.node)];
    SetEntry(h.node.entries - {h.key}, h.others, h.refs - {h.node}, h.key, Ref(cur.node), cur);
    assert h.refs - {h.node} + Refs(cur) == Step(h, cur).refs - {h.node};
  }

  lemma {:induction false} SetEntry(entries: map<string, Value>, subs: map<string, Shape>, refs: set<MapRef>, k: string,
                                    v: Value, vs: Shape)
    requires FitsAll(entries, subs, refs) && Fits(v, vs) && refs !! Refs(vs)
    ensures FitsAll(entries[k := v], subs[k := vs], refs + Refs(vs))
    ensures ViewAll(entries[k := v], subs[k := vs], refs + Refs(vs))
         == ViewAll(entries, subs, refs)[k := ViewValue(v, vs)]
  {
  }

  lemma DropEntry(entries: map<string, Value>, subs: map<string, Shape>, refs: set<MapRef>, k: string)
    requires FitsAll(entries, subs, refs)
    ensures FitsAll(entries - {k}, subs - {k}, refs)
    ensures ViewAll(entries - {k}, subs - {k}, refs) == ViewAll(entries, subs, refs) - {k}
  {
  }

  /** A tree that fits where hops lead gives the tree of the whole. */
  lemma {:induction false} BuildIsShaped(hops: seq<Hop>, cur: Shape)
    requires Shaped(cur) && LeadTo(hops, cur.node) && HopRefs(hops) !! Refs(cur)
    ensures Shaped(Build(hops, cur)) && Refs(Build(hops, cur)) == HopRefs(hops) + Refs(cur)
    ensures View(Build(hops, cur)) == Plug(Around(hops, cur.node), View(cur))
    decreases |hops|
  {
    if hops != [] {
      StepIsShaped(hops[0], cur);
      BuildIsShaped(hops[1..], Step(hops[0], cur));
    }
  }

  // ----- mapFind

  /** Where a key leads: the map that holds it, or would, the key in that map, and what it holds. */
  datatype Found = Found(subKey: string, subMap: MapRef, present: Option<Value>)

  /** `cur` is where the hops lead, inside the whole tree. */
  ghost predicate Way(hops: seq<Hop>, cur: Shape)
    reads HopRefs(hops), Refs(cur)
  {
    Shaped(cur) && LeadTo(hops, cur.node) && HopRefs(hops) !! Refs(cur)
  }

  /** What is done under `key` in `m` is done under what is left of it in the map where the search is. */
  ghost predicate Narrowed(m: Fields, key: string, around: seq<(Fields, string)>, cur: Fields, left: string) {
    && (forall v :: Put(m, key, v) == PlugResult(around, Put(cur, left, v)))
    && Get(m, key) == Get(cur, left)
    && Delete(m, key) == PlugResult(around, Delete(cur, left))
  }

  /** As before, but in a map that the search created: the key was missing. */
  ghost predicate Created(m: Fields, key: string, around: seq<(Fields, string)>, cur: Fields, left: string) {
    && cur == map[] && Get(m, key) == Err(KeyNotFound)
    && (forall v :: Put(m, key, v) == PlugResult(around, Put(cur, left, v)))
  }

  /** The search for `key` has come to `cur`, with `left` to go. */
  ghost predicate Searching(m: Fields, key: string, hops: seq<Hop>, cur: Shape, left: string, created: bool)
    reads HopRefs(hops), Refs(cur)
  {
    && Way(hops, cur)
    && if created then Created(m, key, Around(hops, cur.node), View(cur), left)
       else Narrowed(m, key, Around(hops, cur.node), View(cur), left)
  }

  method MapFind(key: string, data: MapRef, createMissing: bool, ghost s: Shape)
    returns (r: Result<Found>, ghost hops: seq<Hop>, ghost cur: Shape)
    requires Shaped(s) && s.node == data
    modifies if createMissing then Refs(s) else {}
    ensures r.Err? ==> forall n | n in Refs(s) :: old(allocated(n)) && unchanged(n)
    ensures r.Err? ==> Get(old(View(s)), key) == Err(r.error)
    ensures r.Err? && createMissing ==> r.error == NotAMap
    ensures r.Ok? ==> Way(hops, cur) && cur.node == r.value.subMap && Build(hops, cur).node == data
    ensures r.Ok? ==> fresh(HopRefs(hops) + Refs(cur) - Refs(s))
    ensures r.Ok? && !createMissing ==> HopRefs(hops) + Refs(cur) <= Refs(s)
    ensures r.Ok? ==> r.value.present == Lookup(cur.node, r.value.subKey)
    ensures r.Ok? && r.value.present.Some? ==>
      Narrowed(old(View(s)), key, Around(hops, cur.node), View(cur), r.value.subKey)
    ensures r.Ok? && r.value.present.None? ==> Get(old(View(s)), key) == Err(KeyNotFound)
    ensures r.Ok? ==> forall v ::
      Put(old(View(s)), key, v) == Ok(Plug(Around(hops, cur.node), View(cur)[r.value.subKey := v]))
  {
    var left, at := key, data;
    hops, cur := [], s;
    ghost var m, created := View(s), false;
    assert allocated(Refs(s));
    while true
      invariant Searching(m, key, hops, cur, left, created) && cur.node == at
      invariant Build(hops, cur).node == data
      invariant fresh(HopRefs(hops) + Refs(cur) - Refs(s))
      invariant !created ==> HopRefs(hops) + Refs(cur) <= Refs(s)
      invariant created ==> createMissing
      invariant !created ==> forall n | n in Refs(s) :: old(allocated(n)) && unchanged(n)
      decreases |left|
    {
      // What is left of the key is looked up whole before it is cut.
      if left in at.entries {
        Arrives(m, key, hops, cur, left, created);
        return Ok(Found(left, at, Some(at.entries[left]))), hops, cur;
      }
      if !HasDot(left) {
        Arrives(m, key, hops, cur, left, created);
        return Ok(Found(left, at, None)), hops, cur;
      }
      var k := Base(left);
      if k !in at.entries {
        if !createMissing {
          Fails(m, key, hops, cur, left, created);
          return Err(KeyNotFound), hops, cur;
        }
        CreatesOn(m, key, Around(hops, at), View(cur), left, created);
        var d := CreateMissing(at, k, hops, cur);
        hops, cur := [Hop(at, k, cur.subs, cur.refs)] + hops, Tree(d, map[], {d});
        at := d;
        created := true;
      } else {
        match at.entries[k] {
          case Plain(_) =>
            Fails(m, key, hops, cur, left, created);
            return Err(NotAMap), hops, cur;
          case Ref(v) =>
            SearchGoesDown(m, key, hops, cur, left, created);
            hops, cur := [HopFrom(cur, k)] + hops, cur.subs[k];
            at := v;
        }
      }
      left := Rest(left);
    }
  }

  ghost function Lookup(m: MapRef, k: string): Option<Value>
    reads m
  {
    if k in m.entries then Some(m.entries[k]) else None
  }

  /** The hop from `s` along `k`. */
  ghost function HopFrom(s: Shape, k: string): Hop
    requires s.Tree? && k in s.subs
  {
    Hop(s.node, k, s.subs - {k}, s.refs - Refs(s.subs[k]))
  }

  lemma {:induction false} Arrives(m: Fields, key: string, hops: seq<Hop>, cur: Shape, left: string, created: bool)
    requires Searching(m, key, hops, cur, left, created) && (left in cur.node.entries || !HasDot(left))
    ensures if left in cur.node.entries
            then !created && Narrowed(m, key, Around(hops, cur.node), View(cur), left)
            else Get(m, key) == Err(KeyNotFound)
    ensures forall v :: Put(m, key, v) == Ok(Plug(Around(hops, cur.node), View(cur)[left := v]))
  {
    assert left in cur.node.entries ==> left in View(cur);
  }

  lemma {:induction false} Fails(m: Fields, key: string, hops: seq<Hop>, cur: Shape, left: string, created: bool)
    requires Searching(m, key, hops, cur, left, created) && left !in cur.node.entries && HasDot(left)
    requires Base(left) in cur.node.entries ==> cur.node.entries[Base(left)].Plain?
    ensures Base(left) in cur.node.entries ==> !created && Get(m, key) == Err(NotAMap)
    ensures Base(left) !in cur.node.entries ==> Get(m, key) == Err(KeyNotFound)
  {
    if Base(left) in cur.node.entries {
      assert Base(left) in View(cur);
      assert Fits(cur.node.entries[Base(left)], cur.subs[Base(left)]);
    }
  }

  lemma SetsSame(m: Fields, k: string, v: Json)
    ensures forall w {:trigger m[k := w]} :: m[k := v][k := w] == m[k := w]
  {
  }

  lemma NarrowsOn(m: Fields, key: string, around: seq<(Fields, string)>, cur: Fields, left: string,
                  others: Fields, sub: Fields)
    requires Narrowed(m, key, around, cur, left)
    requires left !in cur && HasDot(left) && cur == others[Base(left) := Object(sub)]
    ensures Narrowed(m, key, [(others, Base(left))] + around, sub, Rest(left))
  {
    var around' := [(others, Base(left))] + around;
    assert around'[1..] == around;
    SetsSame(others, Base(left), Object(sub));
    forall v ensures Put(m, key, v) == PlugResult(around', Put(sub, Rest(left), v)) {
      PutBelow(cur, left, v);
    }
  }

  lemma CreatesOn(m: Fields, key: string, around: seq<(Fields, string)>, cur: Fields, left: string, created: bool)
    requires if created then Created(m, key, around, cur, left) else Narrowed(m, key, around, cur, left)
    requires left !in cur && HasDot(left) && Base(left) !in cur
    ensures Created(m, key, [(cur, Base(left))] + around, map[], Rest(left))
  {
    var around' := [(cur, Base(left))] + around;
    assert around'[1..] == around;
    forall v ensures Put(m, key, v) == PlugResult(around', Put(map[], Rest(left), v)) {
      PutBelow(cur, left, v);
    }
  }

  /** A new, empty map under `k`. */
  method CreateMissing(at: MapRef, k: string, ghost hops: seq<Hop>, ghost cur: Shape) returns (d: MapRef)
    requires Way(hops, cur) && cur.node == at && k !in at.entries
    modifies at
    ensures fresh(d)
    ensures var hops', cur' := [Hop(at, k, cur.subs, cur.refs)] + hops, Tree(d, map[], {d});
            && Way(hops', cur') && View(cur') == map[] && HopRefs(hops') == HopRefs(hops) + cur.refs
            && Around(hops', d) == [(old(View(cur)), k)] + old(Around(hops, at))
  {
    ghost var before, around, view := at.entries, Around(hops, at), View(cur);
    assert allocated(HopRefs(hops)) && allocated(cur.refs);
    d := new MapRef.Empty();
    at.entries := at.entries[k := Ref(d)];
    assert FitsAll(before, cur.subs, cur.refs - {at}) && ViewAll(before, cur.subs, cur.refs - {at}) == view;
    assert LeadTo(hops, at) && Around(hops, at) == around;
    LeadsToCreated(at, k, d, before, hops, cur);
  }

  lemma {:induction false} LeadsToCreated(at: MapRef, k: string, d: MapRef, before: map<string, Value>, hops: seq<Hop>,
                                          cur: Shape)
    requires cur.Tree? && at in cur.refs && k !in before && at.entries == before[k := Ref(d)] && d.entries == map[]
    requires FitsAll(before, cur.subs, cur.refs - {at})
    requires LeadTo(hops, at) && HopRefs(hops) !! cur.refs && d !in HopRefs(hops) + cur.refs
    ensures var hops', cur' := [Hop(at, k, cur.subs, cur.refs)] + hops, Tree(d, map[], {d});
            && Way(hops', cur') && View(cur') == map[] && HopRefs(hops') == HopRefs(hops) + cur.refs
            && Around(hops', d) == [(ViewAll(before, cur.subs, cur.refs - {at}), k)] + Around(hops, at)
  {
    var h := Hop(at, k, cur.subs, cur.refs);
    assert ([h] + hops)[1..] == hops;
    assert at.entries - {k} == before;
    assert Leads(h, d);
  }

  /** One hop further. */
  lemma {:induction false} GoesDown(hops: seq<Hop>, cur: Shape, k: string)
    requires Way(hops, cur) && k in cur.node.entries && cur.node.entries[k].Ref?
    ensures k in cur.subs
    ensures var h, sub := HopFrom(cur, k), cur.subs[k];
            && sub.Tree? && sub.node == cur.node.entries[k].target
            && Way([h] + hops, sub) && Leads(h, sub.node)
            && Around([h] + hops, sub.node) == [(Others(h, sub.node), k)] + Around(hops, cur.node)
            && HopRefs([h] + hops) + Refs(sub) == HopRefs(hops) + Refs(cur)
            && View(cur) == Others(h, sub.node)[k := Object(View(sub))]
  {
    var h, sub := HopFrom(cur, k), cur.subs[k];
    assert ([h] + hops)[1..] == hops;
    FitsTree(cur.node.entries[k], sub);
    ViewTree(cur.node.entries[k], sub);
    assert Leads(h, sub.node);
    assert View(cur) == Others(h, sub.node)[k := Object(View(sub))];
  }

  lemma {:induction false} SearchGoesDown(m: Fields, key: string, hops: seq<Hop>, cur: Shape, left: string,
                                          created: bool)
    requires Searching(m, key, hops, cur, left, created) && left !in cur.node.entries && HasDot(left)
    requires Base(left) in cur.node.entries && cur.node.entries[Base(left)].Ref?
    ensures Base(left) in cur.subs && !created
    ensures var hops', sub := [HopFrom(cur, Base(left))] + hops, cur.subs[Base(left)];
            && Searching(m, key, hops', sub, Rest(left), false)
            && sub.node == cur.node.entries[Base(left)].target && Build(hops', sub).node == Build(hops, cur).node
            && HopRefs(hops') + Refs(sub) == HopRefs(hops) + Refs(cur)
  {
    var k := Base(left);
    assert k in View(cur);
    GoesDown(hops, cur, k);
    var h, sub := HopFrom(cur, k), cur.subs[k];
    NarrowsOn(m, key, Around(hops, cur.node), View(cur), left, Others(h, sub.node), View(sub));
  }

  // ----- GetValue, Put, Delete

  /** The entry where a search has come. */
  lemma EntryFits(cur: Shape, k: string)
    requires Shaped(cur) && k in cur.node.entries
    ensures k in cur.subs && Fits(cur.node.entries[k], cur.subs[k]) && Refs(cur.subs[k]) <= Refs(cur)
    ensures k in View(cur) && View(cur)[k] == ViewValue(cur.node.entries[k], cur.subs[k])
  {
  }

  method GetValue(m: MapRef, key: string, ghost s: Shape) returns (r: Result<Value>, ghost vs: Shape)
    requires Shaped(s) && s.node == m
    ensures r.Ok? ==> Fits(r.value, vs) && Refs(vs) <= Refs(s) && Get(old(View(s)), key) == Ok(ViewValue(r.value, vs))
    ensures r.Err? ==> Get(old(View(s)), key) == Err(r.error)
  {
    vs := Leaf;
    var found;
    ghost var hops, cur;
    found, hops, cur := MapFind(key, m, false, s);
    if found.Err? {
      return Err(found.error), vs;
    }
    if found.value.present.None? {
      return Err(KeyNotFound), vs;
    }
    EntryFits(cur, found.value.subKey);
    vs := cur.subs[found.value.subKey];
    return Ok(found.value.present.value), vs;
  }

  /** `m[key] = v`, for a value that shares nothing with the map. */
  method Assign(m: MapRef, k: string, v: Value, ghost s: Shape, ghost vs: Shape) returns (ghost t: Shape)
    requires Shaped(s) && s.node == m && Fits(v, vs) && Refs(s) !! Refs(vs)
    modifies m
    ensures Shaped(t) && t == Tree(m, s.subs[k := vs], s.refs + Refs(vs))
    ensures View(t) == old(View(s))[k := old(ViewValue(v, vs))]
  {
    ghost var before, view, viewed := m.entries, View(s), ViewValue(v, vs);
    assert allocated(s.refs) && allocated(Refs(vs));
    m.entries := m.entries[k := v];
    assert FitsAll(before, s.subs, s.refs - {m}) && ViewAll(before, s.subs, s.refs - {m}) == view;
    assert Fits(v, vs) && ViewValue(v, vs) == viewed;
    SetEntry(before, s.subs, s.refs - {m}, k, v, vs);
    t := Tree(m, s.subs[k := vs], s.refs + Refs(vs));
    assert t.refs - {m} == s.refs - {m} + Refs(vs);
  }

  method Remove(m: MapRef, k: string, ghost s: Shape) returns (ghost t: Shape)
    requires Shaped(s) && s.node == m
    modifies m
    ensures Shaped(t) && t.node == m && Refs(t) == Refs(s)
    ensures View(t) == old(View(s)) - {k}
  {
    ghost var before, view := m.entries, View(s);
    assert allocated(s.refs);
    m.entries := m.entries - {k};
    assert FitsAll(before, s.subs, s.refs - {m}) && ViewAll(before, s.subs, s.refs - {m}) == view;
    DropEntry(before, s.subs, s.refs - {m}, k);
    t := s.(subs := s.subs - {k});
  }

  /** The value that was found, as the entry says it. */
  ghost predicate Holds(found: Result<Json>, v: Value) {
    found.Ok? && if v.Plain? then found.value == v.value else found.value.Object?
  }

  /** Put: either the value is where Get will find it, or nothing has changed. */
  method PutIn(m: MapRef, key: string, v: Value, ghost s: Shape, ghost vs: Shape)
    returns (r: Result<Option<Value>>, ghost t: Shape)
    requires Shaped(s) && s.node == m && Fits(v, vs) && Refs(s) !! Refs(vs)
    modifies Refs(s)
    ensures r.Ok? ==> Shaped(t) && t.node == m && Put(old(View(s)), key, old(ViewValue(v, vs))) == Ok(View(t))
    ensures r.Ok? ==> Stored(old(View(s)), key, old(ViewValue(v, vs)), View(t))
    ensures r.Ok? ==> fresh(Refs(t) - Refs(s) - Refs(vs))
    ensures r.Ok? ==> (r.value.None? <==> Get(old(View(s)), key) == Err(KeyNotFound))
    ensures r.Ok? && r.value.Some? ==> Holds(Get(old(View(s)), key), r.value.value)
    ensures r.Err? ==> Put(old(View(s)), key, old(ViewValue(v, vs))) == Err(r.error)
    ensures r.Err? ==> forall n | n in Refs(s) :: old(allocated(n)) && unchanged(n)
  {
    ghost var full, viewed := View(s), ViewValue(v, vs);
    PutFails(full, key, viewed);
    assert allocated(Refs(vs));
    var found;
    ghost var hops, cur;
    t := s;
    found, hops, cur := MapFind(key, m, true, s);
    if found.Err? {
      return Err(found.error), t;
    }
    if found.value.present.Some? {
      EntryFits(cur, found.value.subKey);
      assert Get(full, key) == Ok(View(cur)[found.value.subKey]);
    }
    FramedValue(v, vs);
    ghost var around, view := Around(hops, cur.node), View(cur);
    assert Put(full, key, viewed) == Ok(Plug(around, view[found.value.subKey := viewed]));
    t := AssignAt(hops, cur, found.value.subKey, found.value.subMap, v, vs);
    PutExactly(full, key, viewed, View(t));
    return Ok(found.value.present), t;
  }

  method AssignAt(ghost hops: seq<Hop>, ghost cur: Shape, k: string, d: MapRef, v: Value, ghost vs: Shape)
    returns (ghost t: Shape)
    requires Way(hops, cur) && cur.node == d && Fits(v, vs) && (HopRefs(hops) + Refs(cur)) !! Refs(vs)
    modifies d
    ensures Shaped(t) && t.node == Build(hops, cur).node && Refs(t) == HopRefs(hops) + Refs(cur) + Refs(vs)
    ensures View(t) == Plug(old(Around(hops, d)), old(View(cur))[k := old(ViewValue(v, vs))])
  {
    assert allocated(HopRefs(hops));
    ghost var around := Around(hops, d);
    ghost var u := Assign(d, k, v, cur, vs);
    assert LeadTo(hops, d) && Around(hops, d) == around;
    BuildIsShaped(hops, u);
    t := Build(hops, u);
  }

  method DeleteIn(m: MapRef, key: string, ghost s: Shape) returns (r: Result<()>, ghost t: Shape)
    requires Shaped(s) && s.node == m
    modifies Refs(s)
    ensures r.Ok? ==> Shaped(t) && t.node == m && Delete(old(View(s)), key) == Ok(View(t)) && Refs(t) <= Refs(s)
    ensures r.Ok? ==> Removed(old(View(s)), key, View(t))
    ensures r.Err? ==> Delete(old(View(s)), key) == Err(r.error)
    ensures r.Err? ==> forall n | n in Refs(s) :: old(allocated(n)) && unchanged(n)
  {
    ghost var full := View(s);
    DeleteFindsWhatGetFinds(full, key);
    assert allocated(Refs(s));
    var found;
    ghost var hops, cur;
    t := s;
    found, hops, cur := MapFind(key, m, false, s);
    if found.Err? {
      return Err(found.error), t;
    }
    if found.value.present.None? {
      return Err(KeyNotFound), t;
    }
    EntryFits(cur, found.value.subKey);
    ghost var around, view := Around(hops, cur.node), View(cur);
    assert Delete(full, key) == Ok(Plug(around, view - {found.value.subKey}));
    t := RemoveAt(hops, cur, found.value.subKey, found.value.subMap);
    DeleteExactly(full, key, View(t));
    return Ok(()), t;
  }

  method RemoveAt(ghost hops: seq<Hop>, ghost cur: Shape, k: string, d: MapRef) returns (ghost t: Shape)
    requires Way(hops, cur) && cur.node == d
    modifies d
    ensures Shaped(t) && t.node == Build(hops, cur).node && Refs(t) == HopRefs(hops) + Refs(cur)
    ensures View(t) == Plug(old(Around(hops, d)), old(View(cur)) - {k})
  {
    assert allocated(HopRefs(hops));
    ghost var around := Around(hops, d);
    ghost var u := Remove(d, k, cur);
    assert LeadTo(hops, d) && Around(hops, d) == around;
    BuildIsShaped(hops, u);
    t := Build(hops, u);
  }

  // ----- deepUpdateMap

  /** deepUpdateMap: the keys of `d` come in any order. Maps of `d` that `m` had no map for become part of `m`. */
  method DeepUpdateMap(m: MapRef, d: MapRef, overwrite: bool, ghost s: Shape, ghost t: Shape)
    returns (ghost r: Shape)
    requires Shaped(s) && s.node == m && Shaped(t) && t.node == d && Refs(s) !! Refs(t)
    modifies Refs(s)
    ensures Shaped(r) && r.node == m && Refs(r) <= Refs(s) + Refs(t)
    ensures View(r) == Update(old(View(s)), old(View(t)), overwrite)
    decreases t, 2
  {
    ghost var before, from := View(s), View(t);
    r := s;
    var todo := d.entries.Keys;
    while todo != {}
      invariant todo <= t.subs.Keys && r.Tree? && r.node == m
      invariant Underway(r, t, todo, Refs(s)) && View(t) == from && Refs(r) <= Refs(s) + Refs(t)
      invariant Merging(before, from, overwrite, todo, View(r))
      decreases todo
    {
      var k :| k in todo;
      MergesOn(before, from, overwrite, todo, k, View(r));
      r := UpdateNext(m, d, k, overwrite, r, t, todo, Refs(s));
      todo := todo - {k};
    }
    Merged(before, from, overwrite, View(r));
  }

  /** The keys in `todo` are to be merged from `t` into `r`, which has only maps of its `own` there. */
  ghost predicate Underway(r: Shape, t: Shape, todo: set<string>, own: set<MapRef>)
    reads Refs(r), Refs(t)
  {
    && Shaped(r) && Shaped(t) && own !! Refs(t) && r.node in own && todo <= t.subs.Keys
    && (forall k | k in todo :: Refs(t.subs[k]) !! Refs(r))
    && (forall k | k in todo && k in r.subs :: Refs(r.subs[k]) <= own)
  }

  method UpdateNext(m: MapRef, d: MapRef, k: string, overwrite: bool, ghost r: Shape, ghost t: Shape,
                    ghost todo: set<string>, ghost own: set<MapRef>)
    returns (ghost r': Shape)
    requires k in todo && Underway(r, t, todo, own) && r.node == m && t.node == d
    modifies own
    ensures r'.Tree? && r'.node == m && Underway(r', t, todo - {k}, own) && Refs(r') <= Refs(r) + Refs(t)
    ensures View(t) == old(View(t)) && k in View(t)
    ensures View(r') == WithKey(old(View(r)), k, View(t)[k], overwrite)
    decreases t, 1
  {
    EntryFits(t, k);
    assert allocated(Refs(t));
    label Before:
    r' := UpdateKey(m, k, d.entries[k], overwrite, r, t.subs[k]);
    Framed@Before(t);
    forall j | j in todo - {k} ensures Refs(t.subs[j]) !! Refs(r') {
      assert Refs(t.subs[j]) !! Refs(t.subs[k]);
    }
  }

  /** The merge, while the keys in `todo` are still to be taken. */
  ghost predicate Merging(m: Fields, d: Fields, overwrite: bool, todo: set<string>, r: Fields) {
    && r.Keys == m.Keys + (d.Keys - todo)
    && forall k | k in r :: r[k] == if k in d && k !in todo then UpdateEntry(m, d, k, overwrite) else m[k]
  }

  /** What one key does. */
  function WithKey(m: Fields, k: string, v: Json, overwrite: bool): Fields {
    if v.Object? && k in m && m[k].Object? then m[k := Object(Update(m[k].fields, v.fields, overwrite))]
    else if v.Object? || overwrite || k !in m then m[k := v]
    else m
  }

  lemma {:induction false} Merged(m: Fields, d: Fields, overwrite: bool, r: Fields)
    requires Merging(m, d, overwrite, {}, r)
    ensures r == Update(m, d, overwrite)
  {
  }

  lemma MergesOn(m: Fields, d: Fields, overwrite: bool, todo: set<string>, k: string, r: Fields)
    requires todo <= d.Keys && k in todo && Merging(m, d, overwrite, todo, r)
    ensures Merging(m, d, overwrite, todo - {k}, WithKey(r, k, d[k], overwrite))
  {
    assert k in r <==> k in m;
  }

  /** One key: deepUpdateValue and what is assigned. */
  method UpdateKey(m: MapRef, k: string, v: Value, overwrite: bool, ghost s: Shape, ghost vs: Shape)
    returns (ghost t: Shape)
    requires Shaped(s) && s.node == m && Fits(v, vs) && Refs(s) !! Refs(vs)
    modifies m, if k in s.subs then Refs(s.subs[k]) else {}
    ensures Shaped(t) && t.node == m && Refs(t) <= Refs(s) + Refs(vs)
    ensures t.subs.Keys == s.subs.Keys + {k} && forall j | j in s.subs && j != k :: t.subs[j] == s.subs[j]
    ensures View(t) == WithKey(old(View(s)), k, old(ViewValue(v, vs)), overwrite)
    decreases vs, 5
  {
    match v {
      case Ref(val) =>
        FitsTree(v, vs);
        ViewTree(v, vs);
        t := UpdateWithMap(m, k, val, overwrite, s, vs);
      case Plain(_) =>
        ghost var before, viewed := View(s), ViewValue(v, vs);
        assert k in before <==> k in m.entries;
        t := s;
        if overwrite || k !in m.entries {
          t := Assign(m, k, v, s, vs);
          assert View(t) == before[k := viewed];
        }
    }
  }

  /** deepUpdateValue for a map: merged into the map under `k`, or put there. */
  method UpdateWithMap(m: MapRef, k: string, val: MapRef, overwrite: bool, ghost s: Shape, ghost vs: Shape)
    returns (ghost t: Shape)
    requires Shaped(s) && s.node == m && Shaped(vs) && vs.node == val && Refs(s) !! Refs(vs)
    modifies m, if k in s.subs then Refs(s.subs[k]) else {}
    ensures Shaped(t) && t.node == m && Refs(t) <= Refs(s) + Refs(vs)
    ensures t.subs.Keys == s.subs.Keys + {k} && forall j | j in s.subs && j != k :: t.subs[j] == s.subs[j]
    ensures View(t) == WithKey(old(View(s)), k, Object(old(View(vs))), overwrite)
    decreases vs, 4
  {
    FitsTree(Ref(val), vs);
    ViewTree(Ref(val), vs);
    if k in m.entries {
      EntryFits(s, k);
      assert View(s)[k].Object? <==> m.entries[k].Ref?;
    }
    if k in m.entries && m.entries[k].Ref? {
      t := UpdateSub(m, k, m.entries[k].target, val, overwrite, s, vs);
    } else {
      t := Assign(m, k, Ref(val), s, vs);
    }
  }

  /** The map under a key, and the rest. */
  lemma MapUnder(s: Shape, k: string)
    requires Shaped(s) && k in s.node.entries && s.node.entries[k].Ref?
    ensures k in s.subs
    ensures var h, sub := HopFrom(s, k), s.subs[k];
            && Shaped(sub) && sub.node == s.node.entries[k].target && Leads(h, sub.node)
            && h.refs !! Refs(sub) && h.refs + Refs(sub) == Refs(s)
            && k in View(s) && View(s)[k] == Object(View(sub))
            && forall w {:trigger View(s)[k := w]} :: View(s)[k := w] == Others(h, sub.node)[k := w]
  {
    GoesDown([], s, k);
    SetsSame(Others(HopFrom(s, k), s.subs[k].node), k, Object(View(s.subs[k])));
  }

  method UpdateSub(m: MapRef, k: string, sub: MapRef, val: MapRef, overwrite: bool, ghost s: Shape, ghost vs: Shape)
    returns (ghost t: Shape)
    requires Shaped(s) && s.node == m && k in m.entries && m.entries[k] == Ref(sub)
    requires Shaped(vs) && vs.node == val && Refs(s) !! Refs(vs)
    modifies Refs(s.subs[k])
    ensures Shaped(t) && t.node == m && Refs(t) <= Refs(s) + Refs(vs)
    ensures t.subs.Keys == s.subs.Keys + {k} && forall j | j in s.subs && j != k :: t.subs[j] == s.subs[j]
    ensures k in old(View(s)) && old(View(s))[k].Object?
    ensures View(t) == old(View(s))[k := Object(Update(old(View(s))[k].fields, old(View(vs)), overwrite))]
    decreases vs, 3
  {
    MapUnder(s, k);
    ghost var h := HopFrom(s, k);
    assert allocated(h.refs);
    ghost var u := DeepUpdateMap(sub, val, overwrite, s.subs[k], vs);
    FramedHop(h, sub);
    StepIsShaped(h, u);
    t := Step(h, u);
  }
}
