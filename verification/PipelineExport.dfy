/** Fetching pipelines with all they refer to, and writing them to files. */
module PipelineExport {
  import opened Sequences
  import opened Json
  import opened Options
  import opened Pipelines

  // ----- Fetching

  /** GetProcessorPipelineNames */
  method GetProcessorPipelineNames(p: Pipeline) returns (names: seq<string>)
    ensures Elements(names) == Names(p) && Distinct(names)
  {
    names := [];
    for i := 0 to |p.processors|
      invariant Distinct(names)
      invariant forall n :: n in names <==> Some(n) in p.processors[..i]
    {
      var processor := p.processors[i];
      assert p.processors[..i + 1] == p.processors[..i] + [processor];
      if processor.None? || processor.value in names {
        continue;
      }
      names := names + [processor.value];
    }
    assert p.processors[..|p.processors|] == p.processors;
  }

  /** The names that some of the pipelines refer to. */
  function AllNames(ps: seq<Pipeline>): set<string> {
    set p, n | p in ps && n in Names(p) :: n
  }

  function Ids(ps: seq<Pipeline>): set<string> {
    set p | p in ps :: p.id
  }

  /** A server keeps every pipeline under its own name. */
  ghost predicate Consistent(server: Lookup) {
    forall n | n in server :: server[n].id == n
  }

  /** GetRemotePipelines: those of the named pipelines that exist, in any order. */
  method GetRemotePipelines(server: Lookup, ids: seq<string>) returns (ps: seq<Pipeline>)
    requires Consistent(server)
    ensures Holds(server, ps, Elements(ids))
  {
    ps := [];
    var todo := Elements(ids) * server.Keys;
    while todo != {}
      invariant todo <= Elements(ids) * server.Keys
      invariant Holds(server, ps, Elements(ids) - todo)
      decreases todo
    {
      var n :| n in todo;
      ps := ps + [server[n]];
      todo := todo - {n};
    }
  }

  /** pendingNestedPipelines */
  method PendingNestedPipelines(ps: seq<Pipeline>, collected: seq<string>) returns (names: seq<string>)
    ensures Elements(names) == AllNames(ps) - Elements(collected)
    ensures Distinct(names)
  {
    names := [];
    for i := 0 to |ps|
      invariant Distinct(names)
      invariant forall n :: n in names <==> n in AllNames(ps[..i]) && n !in collected
    {
      ghost var before := names;
      assert ps[..i + 1] == ps[..i] + [ps[i]];
      assert AllNames(ps[..i + 1]) == AllNames(ps[..i]) + Names(ps[i]);
      var processors := ps[i].processors;
      for j := 0 to |processors|
        invariant Distinct(names)
        invariant forall n :: n in names <==> n in before || (Some(n) in processors[..j] && n !in collected)
      {
        assert processors[..j + 1] == processors[..j] + [processors[j]];
        if processors[j].None? || processors[j].value in collected || processors[j].value in names {
          continue;
        }
        names := names + [processors[j].value];
      }
      assert processors[..|processors|] == processors;
    }
    assert ps[..|ps|] == ps;
  }

  /** GetRemotePipelinesWithNested: what can be reached, also around loops. */
  method GetRemotePipelinesWithNested(server: Lookup, ids: seq<string>) returns (ps: seq<Pipeline>)
    requires Consistent(server)
    ensures forall p | p in ps :: p.id in server && p == server[p.id]
    ensures forall n :: n in Ids(ps) <==> Wanted(server, ids, n)
  {
    ps := [];
    var collected: seq<string> := [];
    var pending := ids;
    StartsFetching(server, ids);
    while pending != []
      invariant Fetching(server, ids, ps, collected, pending)
      decreases Left(server, ids, collected)
    {
      var more := GetRemotePipelines(server, pending);
      var next := PendingNestedPipelines(ps + more, collected + pending);
      FetchesOn(server, ids, ps, collected, pending, more, next);
      ps := ps + more;
      collected := collected + pending;
      pending := next;
    }
    AllCollected(server, ids, ps, Elements(collected));
  }

  /** The names that can come up and have not been asked for. */
  ghost function Left(server: Lookup, ids: seq<string>, collected: seq<string>): nat {
    |Elements(ids) + Referred(server) - Elements(collected)|
  }

  ghost predicate Fetching(server: Lookup, ids: seq<string>, ps: seq<Pipeline>, collected: seq<string>,
                           pending: seq<string>)
  {
    && Collecting(server, ids, ps, Elements(collected), Elements(pending))
    && Elements(pending) <= Elements(ids) + Referred(server) - Elements(collected)
  }

  lemma StartsFetching(server: Lookup, ids: seq<string>)
    ensures Fetching(server, ids, [], [], ids)
  {
    forall n | n in ids && n in server ensures Wanted(server, ids, n) {
      ReachesFrom(server, n, n);
    }
  }

  lemma FetchesOn(server: Lookup, ids: seq<string>, ps: seq<Pipeline>, collected: seq<string>, pending: seq<string>,
                  more: seq<Pipeline>, next: seq<string>)
    requires Consistent(server) && Fetching(server, ids, ps, collected, pending) && pending != []
    requires Holds(server, more, Elements(pending))
    requires Elements(next) == AllNames(ps + more) - Elements(collected + pending)
    ensures Fetching(server, ids, ps + more, collected + pending, next)
    ensures Left(server, ids, collected + pending) < Left(server, ids, collected)
  {
    var all, c, p := Elements(ids) + Referred(server), Elements(collected), Elements(pending);
    assert pending[0] in p;
    assert Elements(collected + pending) == c + p;
    CollectsOn(server, ids, ps, c, p, more);
    assert all - (c + p) == (all - c) - p;
    Shrinks(all - c, p);
  }

  function Referred(server: Lookup): set<string> {
    set m, n | m in server && n in Names(server[m]) :: n
  }

  lemma Shrinks(a: set<string>, b: set<string>)
    requires b <= a && b != {}
    ensures |a - b| < |a|
  {
    assert a == (a - b) + b;
  }

  /** Asked for, or reachable from what was asked for. */
  ghost predicate Wanted(server: Lookup, ids: seq<string>, n: string) {
    exists id | id in ids :: Reaches(server, id, n)
  }

  predicate Holds(server: Lookup, ps: seq<Pipeline>, names: set<string>) {
    && (forall p | p in ps :: p.id in names && p.id in server && p == server[p.id])
    && (forall n | n in names && n in server :: server[n] in ps)
  }

  /** The pipelines `collected` are there; those `pending` are next. */
  ghost predicate Collecting(server: Lookup, ids: seq<string>, ps: seq<Pipeline>, collected: set<string>,
                             pending: set<string>)
  {
    && Holds(server, ps, collected)
    && Elements(ids) <= collected + pending && AllNames(ps) <= collected + pending
    && forall n | n in collected + pending && n in server :: Wanted(server, ids, n)
  }

  lemma CollectsOn(server: Lookup, ids: seq<string>, ps: seq<Pipeline>, collected: set<string>, pending: set<string>,
                   more: seq<Pipeline>)
    requires Consistent(server) && Collecting(server, ids, ps, collected, pending) && Holds(server, more, pending)
    ensures AllNames(ps + more) <= Referred(server)
    ensures Collecting(server, ids, ps + more, collected + pending, AllNames(ps + more) - (collected + pending))
  {
    forall n | n in AllNames(ps + more) ensures n in Referred(server) && (n in server ==> Wanted(server, ids, n)) {
      var p :| p in ps + more && n in Names(p);
      assert p.id in server && p == server[p.id] && p.id in collected + pending;
      if n in server {
        var id :| id in ids && Reaches(server, id, p.id);
        ReachesOn(server, id, p.id, n);
      }
    }
  }

  lemma ReachesOn(g: Lookup, a: string, b: string, c: string)
    requires Reaches(g, a, b) && c in g && c in Names(g[b])
    ensures Reaches(g, a, c)
  {
    var p :| Joins(g, a, b, p);
    assert Joins(g, a, c, p + [c]);
  }

  lemma {:induction false} ReachedIsCollected(server: Lookup, ps: seq<Pipeline>, collected: set<string>, p: seq<string>)
    requires Holds(server, ps, collected) && AllNames(ps) <= collected && Path(server, p) && p[0] in collected
    ensures p[|p| - 1] in collected
    decreases |p|
  {
    if |p| > 1 {
      assert server[p[0]] in ps;
      ReachedIsCollected(server, ps, collected, p[1..]);
    }
  }

  lemma AllCollected(server: Lookup, ids: seq<string>, ps: seq<Pipeline>, collected: set<string>)
    requires Consistent(server) && Collecting(server, ids, ps, collected, {})
    ensures forall n :: n in Ids(ps) <==> Wanted(server, ids, n)
  {
    forall n | Wanted(server, ids, n) ensures n in Ids(ps) {
      var id :| id in ids && Reaches(server, id, n);
      var p :| Joins(server, id, n, p);
      assert id in Elements(ids);
      ReachedIsCollected(server, ps, collected, p);
      assert server[n] in ps && server[n].id == n;
    }
  }

  // ----- Writing

  datatype Location = Location(typ: string, name: string, parentPath: string)

  type Assignments = map<string, Location>

  type Files = map<(string, string), map<string, Json>>

  /** The files written, by directory and pipeline name. */
  class Disk {
    var files: Files
  }

  function Contents(p: Pipeline): map<string, Json> {
    p.body - {"_meta", "version"}
  }

  /** The file has all of the pipeline but its metadata and its version. */
  ghost predicate Exported(file: map<string, Json>, p: Pipeline) {
    && (forall k :: k in file <==> k in p.body && k != "_meta" && k != "version")
    && forall k | k in file :: file[k] == p.body[k]
  }

  /** The files that assigning locations to `names` asks for: all that is reachable goes where its root goes. */
  ghost function Targets(g: Lookup, assignments: Assignments, names: set<string>): set<(string, string)> {
    set a, b | a in names && a in assignments && b in g && Reaches(g, a, b) :: (assignments[a].parentPath, b)
  }

  /** The targets are written and everything else is as before. */
  ghost predicate Written(g: Lookup, before: Files, targets: set<(string, string)>,
                          after: Files)
  {
    && (forall t | t in targets :: t.1 in g) && after.Keys == before.Keys + targets
    && forall t | t in after :: if t in targets then Exported(after[t], g[t.1]) else after[t] == before[t]
  }

  /** createWriteAssignments */
  method CreateWriteAssignments(location: Location, names: seq<string>) returns (assignments: Assignments)
    ensures assignments == map n | n in Elements(names) :: location
  {
    assignments := map[];
    for i := 0 to |names|
      invariant assignments == map n | n in Elements(names[..i]) :: location
    {
      assert names[..i + 1] == names[..i] + [names[i]];
      assignments := assignments[names[i] := location];
    }
    assert names[..|names|] == names;
  }

  /** writePipelineToFile, where `fails` says which files cannot be written. */
  method WritePipelineToFile(p: Pipeline, location: Location, disk: Disk, fails: (string, string) -> bool)
    returns (ok: bool)
    modifies disk
    ensures ok == !fails(location.parentPath, p.id)
    ensures disk.files == if ok then old(disk.files)[(location.parentPath, p.id) := Contents(p)] else old(disk.files)
    ensures ok ==> (location.parentPath, p.id) in disk.files && Exported(disk.files[(location.parentPath, p.id)], p)
  {
    if fails(location.parentPath, p.id) {
      return false;
    }
    disk.files := disk.files[(location.parentPath, p.id) := Contents(p)];
    return true;
  }

  /** writePipelinesToFiles, having come along `trail`. */
  method WritePipelinesToFiles(assignments: Assignments, g: Lookup, disk: Disk, fails: (string, string) -> bool,
                               ghost trail: seq<string>)
    returns (ok: bool, ghost written: set<(string, string)>)
    requires Consistent(g) && OnTrail(g, trail, assignments.Keys)
    modifies disk
    ensures Outcome(g, old(disk.files), Targets(g, assignments, assignments.Keys), fails, ok, written, disk.files)
    decreases |g| - |trail|, 1
  {
    written := {};
    var todo := assignments.Keys;
    assert assignments.Keys - todo == {} && assignments.Keys - {} == assignments.Keys;
    while todo != {}
      invariant todo <= assignments.Keys
      invariant Outcome(g, old(disk.files), Targets(g, assignments, assignments.Keys - todo), fails, true, written,
                        disk.files)
      decreases todo
    {
      var name :| name in todo;
      ghost var before, more := disk.files, {};
      ok, more := WriteWithNested(name, assignments[name], g, disk, fails, trail, assignments.Keys);
      OneMore(g, assignments, todo, name, old(disk.files), written, before, fails, ok, more, disk.files);
      written := written + more;
      if !ok {
        return false, written;
      }
      todo := todo - {name};
    }
    return true, written;
  }

  lemma OneMore(g: Lookup, assignments: Assignments, todo: set<string>, name: string, f0: Files,
                done: set<(string, string)>, f1: Files, fails: (string, string) -> bool, ok: bool,
                more: set<(string, string)>, f2: Files)
    requires todo <= assignments.Keys && name in todo
    requires Outcome(g, f0, Targets(g, assignments, assignments.Keys - todo), fails, true, done, f1)
    requires Outcome(g, f1, FilesFor(g, assignments[name], name), fails, ok, more, f2)
    ensures Outcome(g, f0, Targets(g, assignments, assignments.Keys - if ok then todo - {name} else {}), fails, ok,
                    done + more, f2)
  {
    var now := FilesFor(g, assignments[name], name);
    TargetsSplit(g, assignments, todo, name);
    OutcomeThen(g, f0, done, f1, now, fails, ok, more, f2);
    assert assignments.Keys - {} == assignments.Keys;
  }

  /** One pipeline, if it exists, and all it refers to. */
  method WriteWithNested(name: string, location: Location, g: Lookup, disk: Disk, fails: (string, string) -> bool,
                         ghost trail: seq<string>, ghost names: set<string>)
    returns (ok: bool, ghost written: set<(string, string)>)
    requires Consistent(g) && OnTrail(g, trail, names) && name in names
    modifies disk
    ensures Outcome(g, old(disk.files), FilesFor(g, location, name), fails, ok, written, disk.files)
    decreases |g| - |trail|, 0
  {
    written := {};
    if name !in g {
      assert FilesFor(g, location, name) == {};
      return true, written;
    }
    TrailOnward(g, trail, names, name);
    NestedFiles(g, location, name);
    ok := WritePipelineToFile(g[name], location, disk, fails);
    if !ok {
      return;
    }
    ghost var before, more := disk.files, {};
    WroteOne(g, old(disk.files), location, name);
    ok, more := WriteNested(name, location, g, disk, fails, trail + [name]);
    written := {(location.parentPath, name)} + more;
    OutcomeThen(g, old(disk.files), {(location.parentPath, name)}, before, NestedFor(g, location, name), fails, ok,
                more, disk.files);
  }

  /** The pipelines that one refers to, to the same location. */
  method WriteNested(name: string, location: Location, g: Lookup, disk: Disk, fails: (string, string) -> bool,
                     ghost trail: seq<string>)
    returns (ok: bool, ghost written: set<(string, string)>)
    requires Consistent(g) && name in g && OnTrail(g, trail, Names(g[name]))
    modifies disk
    ensures Outcome(g, old(disk.files), NestedFor(g, location, name), fails, ok, written, disk.files)
    decreases |g| - |trail|, 2
  {
    var nested := GetProcessorPipelineNames(g[name]);
    var assignments := CreateWriteAssignments(location, nested);
    AssignedNested(g, location, name, assignments);
    ok, written := WritePipelinesToFiles(assignments, g, disk, fails, trail);
  }

  /** The outcome of writing `targets`: all written, or only some because one fails. */
  ghost predicate Outcome(g: Lookup, before: Files, targets: set<(string, string)>, fails: (string, string) -> bool,
                          ok: bool, written: set<(string, string)>, after: Files)
  {
    && written <= targets && Written(g, before, written, after)
    && (forall t | t in written :: !fails(t.0, t.1))
    && (ok ==> written == targets)
    && (!ok ==> exists t | t in targets :: fails(t.0, t.1))
  }

  lemma OutcomeThen(g: Lookup, f0: Files, done: set<(string, string)>, f1: Files, targets: set<(string, string)>,
                    fails: (string, string) -> bool, ok: bool, more: set<(string, string)>, f2: Files)
    requires Written(g, f0, done, f1) && forall t | t in done :: !fails(t.0, t.1)
    requires Outcome(g, f1, targets, fails, ok, more, f2)
    ensures Outcome(g, f0, done + targets, fails, ok, done + more, f2)
  {
  }

  /** The way to `names` is along `trail`, and no way on comes by a pipeline twice. */
  ghost predicate OnTrail(g: Lookup, trail: seq<string>, names: set<string>) {
    && NoLoop(g, trail, names) && |trail| <= |g|
    && (trail == [] || (Path(g, trail) && names <= Names(g[trail[|trail| - 1]])))
  }

  lemma TrailOnward(g: Lookup, trail: seq<string>, names: set<string>, n: string)
    requires OnTrail(g, trail, names) && n in names && n in g
    ensures |trail| < |g| && OnTrail(g, trail + [n], Names(g[n]))
  {
    OneFurther(g, trail, n);
    assert Path(g, trail + [n]) && [n][0] in names;
    DistinctIsShort(trail + [n], g.Keys);
    NoLoopOnward(g, trail, names, n);
  }

  ghost function FilesFor(g: Lookup, location: Location, name: string): set<(string, string)> {
    set b | b in g && Reaches(g, name, b) :: (location.parentPath, b)
  }

  ghost function NestedFor(g: Lookup, location: Location, name: string): set<(string, string)>
    requires name in g
  {
    set n, b | n in Names(g[name]) && b in g && Reaches(g, n, b) :: (location.parentPath, b)
  }

  lemma NestedFiles(g: Lookup, location: Location, name: string)
    requires name in g
    ensures FilesFor(g, location, name) == {(location.parentPath, name)} + NestedFor(g, location, name)
  {
    forall b ensures Reaches(g, name, b) <==> b == name || exists n | n in Names(g[name]) :: Reaches(g, n, b) {
      ReachesFrom(g, name, b);
    }
    assert forall n, b | Reaches(g, n, b) :: b in g;
  }

  lemma AssignedNested(g: Lookup, location: Location, name: string, assignments: Assignments)
    requires name in g && assignments == map n | n in Names(g[name]) :: location
    ensures assignments.Keys == Names(g[name])
    ensures Targets(g, assignments, assignments.Keys) == NestedFor(g, location, name)
  {
  }

  lemma WroteOne(g: Lookup, files: Files, location: Location, name: string)
    requires name in g
    ensures var t := (location.parentPath, name); Written(g, files, {t}, files[t := Contents(g[name])])
  {
  }

  lemma TargetsSplit(g: Lookup, assignments: Assignments, todo: set<string>, name: string)
    requires todo <= assignments.Keys && name in todo
    ensures Targets(g, assignments, assignments.Keys - (todo - {name}))
         == Targets(g, assignments, assignments.Keys - todo) + FilesFor(g, assignments[name], name)
    ensures Targets(g, assignments, assignments.Keys - (todo - {name})) <= Targets(g, assignments, assignments.Keys)
  {
    assert assignments.Keys - (todo - {name}) == (assignments.Keys - todo) + {name};
  }

  // ----- The whole export

  /** IngestPipelines: fetches the assigned pipelines with all they refer to, and writes them. */
  method IngestPipelines(server: Lookup, assignments: Assignments, disk: Disk, fails: (string, string) -> bool)
    returns (ok: bool, ghost written: set<(string, string)>)
    requires Consistent(server) && NoLoop(server, [], assignments.Keys)
    modifies disk
    ensures Outcome(server, old(disk.files), Targets(server, assignments, assignments.Keys), fails, ok, written,
                    disk.files)
  {
    var ids := AssignedNames(assignments);
    var pipelines := GetRemotePipelinesWithNested(server, ids);
    var lookup: Lookup := map[];
    for i := 0 to |pipelines|
      invariant lookup.Keys == Ids(pipelines[..i])
      invariant forall n | n in lookup :: n in server && lookup[n] == server[n]
    {
      assert pipelines[..i + 1] == pipelines[..i] + [pipelines[i]];
      lookup := lookup[pipelines[i].id := pipelines[i]];
    }
    assert pipelines[..|pipelines|] == pipelines;
    LookupIsEnough(server, ids, lookup, assignments);
    ok, written := WritePipelinesToFiles(assignments, lookup, disk, fails, []);
  }

  method AssignedNames(assignments: Assignments) returns (ids: seq<string>)
    ensures Elements(ids) == assignments.Keys
  {
    ids := [];
    var todo := assignments.Keys;
    while todo != {}
      invariant todo <= assignments.Keys && Elements(ids) == assignments.Keys - todo
      decreases todo
    {
      var name :| name in todo;
      assert Elements(ids + [name]) == Elements(ids) + {name};
      ids := ids + [name];
      todo := todo - {name};
    }
  }

  /** The fetched pipelines are those that can be reached. */
  ghost predicate Fetched(server: Lookup, ids: seq<string>, lookup: Lookup) {
    && (forall n | n in lookup :: n in server && lookup[n] == server[n])
    && (forall n :: n in lookup <==> Wanted(server, ids, n))
  }

  lemma PathsFetched(server: Lookup, ids: seq<string>, lookup: Lookup, p: seq<string>)
    requires Fetched(server, ids, lookup) && p != [] && p[0] in ids
    ensures Path(lookup, p) <==> Path(server, p)
  {
    if Path(server, p) {
      forall i | 0 <= i < |p| ensures p[i] in lookup {
        assert Joins(server, p[0], p[i], p[..i + 1]);
        assert Reaches(server, p[0], p[i]);
      }
    }
  }

  /** From what was asked for, the same can be reached among the fetched pipelines as on the server. */
  lemma FetchedReachesAll(server: Lookup, ids: seq<string>, lookup: Lookup, a: string, b: string)
    requires Fetched(server, ids, lookup) && a in ids
    ensures Reaches(lookup, a, b) <==> Reaches(server, a, b)
  {
    if Reaches(server, a, b) {
      var p :| Joins(server, a, b, p);
      PathsFetched(server, ids, lookup, p);
      assert Joins(lookup, a, b, p);
    }
    if Reaches(lookup, a, b) {
      var p :| Joins(lookup, a, b, p);
      PathsFetched(server, ids, lookup, p);
      assert Joins(server, a, b, p);
    }
  }

  lemma LookupIsEnough(server: Lookup, ids: seq<string>, lookup: Lookup, assignments: Assignments)
    requires Consistent(server) && Fetched(server, ids, lookup) && Elements(ids) == assignments.Keys
    requires NoLoop(server, [], assignments.Keys)
    ensures Consistent(lookup) && OnTrail(lookup, [], assignments.Keys)
    ensures Targets(lookup, assignments, assignments.Keys) == Targets(server, assignments, assignments.Keys)
  {
    forall p | Path(lookup, [] + p) && p != [] && p[0] in assignments.Keys ensures Distinct([] + p) {
      assert p[0] in Elements(ids) && [] + p == p;
      PathsFetched(server, ids, lookup, p);
      assert Path(server, [] + p);
    }
    forall a, b | a in assignments.Keys ensures Reaches(lookup, a, b) <==> Reaches(server, a, b) {
      assert a in Elements(ids);
      FetchedReachesAll(server, ids, lookup, a, b);
    }
    assert forall a, b | Reaches(server, a, b) :: b in server;
    assert forall a, b | Reaches(lookup, a, b) :: b in lookup;
  }
}
