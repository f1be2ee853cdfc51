/** Dead-code detection (scripts/dead-code/find-dead-code.ts): traverse and the classification loop. */
module DeadCode {
  import opened Wrappers

  // ----- graphs -----

  datatype Edge = Edge(from: string, to: string)

  ghost predicate IsPath(path: seq<string>, edges: seq<Edge>) {
    path != [] && forall i :: 0 < i < |path| ==> Edge(path[i - 1], path[i]) in edges
  }

  ghost predicate IsPathTo(path: seq<string>, roots: seq<string>, edges: seq<Edge>, node: string) {
    IsPath(path, edges) && path[0] in roots && path[|path| - 1] == node
  }

  ghost predicate Reachable(roots: seq<string>, edges: seq<Edge>, node: string) {
    exists path :: IsPathTo(path, roots, edges, node)
  }

  lemma RootIsReachable(roots: seq<string>, edges: seq<Edge>, root: string)
    requires root in roots
    ensures Reachable(roots, edges, root)
  {
    assert IsPathTo([root], roots, edges, root);
  }

  lemma StepIsReachable(roots: seq<string>, edges: seq<Edge>, node: string, child: string)
    requires Reachable(roots, edges, node) && Edge(node, child) in edges
    ensures Reachable(roots, edges, child)
  {
    var path :| IsPathTo(path, roots, edges, node);
    assert IsPathTo(path + [child], roots, edges, child);
  }

  ghost predicate Closed(nodes: set<string>, roots: seq<string>, edges: seq<Edge>) {
    && (forall r :: r in roots ==> r in nodes)
    && (forall e :: e in edges && e.from in nodes ==> e.to in nodes)
  }

  lemma {:induction false} ClosedHoldsPath(nodes: set<string>, roots: seq<string>, edges: seq<Edge>,
                                           path: seq<string>, i: nat)
    requires Closed(nodes, roots, edges) && IsPath(path, edges) && path[0] in roots && i < |path|
    ensures path[i] in nodes
  {
    if i == 0 {
    } else {
      ClosedHoldsPath(nodes, roots, edges, path, i - 1);
      assert Edge(path[i - 1], path[i]) in edges;
    }
  }

  lemma ClosedHoldsReachable(nodes: set<string>, roots: seq<string>, edges: seq<Edge>)
    requires Closed(nodes, roots, edges)
    ensures forall n :: Reachable(roots, edges, n) ==> n in nodes
  {
    forall n | Reachable(roots, edges, n) ensures n in nodes {
      var path :| IsPathTo(path, roots, edges, n);
      ClosedHoldsPath(nodes, roots, edges, path, |path| - 1);
    }
  }

  // ----- traverse -----

  function ChildrenOf(adjacency: map<string, seq<string>>, node: string): seq<string> {
    if node in adjacency then adjacency[node] else []
  }

  method BuildAdjacency(edges: seq<Edge>) returns (adjacency: map<string, seq<string>>)
    ensures forall n, c :: c in ChildrenOf(adjacency, n) <==> Edge(n, c) in edges
  {
    adjacency := map[];
    for i := 0 to |edges|
      invariant forall n, c :: c in ChildrenOf(adjacency, n) <==> Edge(n, c) in edges[..i]
    {
      var list := ChildrenOf(adjacency, edges[i].from);
      adjacency := adjacency[edges[i].from := list + [edges[i].to]];
      assert edges[..i + 1] == edges[..i] + [edges[i]];
    }
    assert edges[..|edges|] == edges;
  }

  ghost function Targets(edges: seq<Edge>): set<string> {
    set e | e in edges :: e.to
  }

  ghost function Roots(roots: seq<string>): set<string> {
    set r | r in roots
  }

  /** Everything still to be explored is on the queue. */
  ghost predicate Frontier(seen: set<string>, queue: seq<string>, roots: seq<string>, edges: seq<Edge>) {
    && (forall r :: r in roots ==> r in seen || r in queue)
    && (forall e :: e in edges && e.from in seen ==> e.to in seen || e.to in queue)
  }

  ghost predicate AllReachable(nodes: set<string>, queue: seq<string>, roots: seq<string>, edges: seq<Edge>) {
    forall n :: n in nodes || n in queue ==> Reachable(roots, edges, n)
  }

  /** The children not seen yet, in order. */
  method Unseen(children: seq<string>, seen: set<string>) returns (pushed: seq<string>)
    ensures forall n :: n in pushed <==> n in children && n !in seen
  {
    pushed := [];
    for i := 0 to |children|
      invariant forall n :: n in pushed <==> n in children[..i] && n !in seen
    {
      if children[i] !in seen {
        pushed := pushed + [children[i]];
      }
      assert children[..i + 1] == children[..i] + [children[i]];
    }
    assert children[..|children|] == children;
  }

  lemma ReachableIsKnown(roots: seq<string>, edges: seq<Edge>, node: string)
    requires Reachable(roots, edges, node)
    ensures node in Roots(roots) + Targets(edges)
  {
    var path :| IsPathTo(path, roots, edges, node);
    if |path| > 1 {
      assert Edge(path[|path| - 2], path[|path| - 1]) in edges;
    }
  }

  /** One node taken off the queue and explored keeps the frontier. */
  lemma ExploreKeepsFrontier(seen: set<string>, queue: seq<string>, children: seq<string>, pushed: seq<string>,
                             roots: seq<string>, edges: seq<Edge>)
    requires queue != [] && Frontier(seen, queue, roots, edges)
    requires forall c :: c in children <==> Edge(queue[0], c) in edges
    requires forall n :: n in pushed <==> n in children && n !in seen + {queue[0]}
    ensures Frontier(seen + {queue[0]}, queue[1..] + pushed, roots, edges)
  {
    assert queue == [queue[0]] + queue[1..];
    forall e | e in edges && e.from in seen + {queue[0]}
      ensures e.to in seen + {queue[0]} || e.to in queue[1..] + pushed
    {
      if e.from == queue[0] {
        assert e == Edge(queue[0], e.to);
        assert e.to in children;
      }
    }
  }

  lemma ExploreKeepsReachable(seen: set<string>, queue: seq<string>, children: seq<string>, pushed: seq<string>,
                              roots: seq<string>, edges: seq<Edge>)
    requires queue != [] && AllReachable(seen, queue, roots, edges)
    requires forall c :: c in children <==> Edge(queue[0], c) in edges
    requires forall n :: n in pushed ==> n in children
    ensures AllReachable(seen + {queue[0]}, queue[1..] + pushed, roots, edges)
  {
    assert queue[0] in queue;
    forall n | n in pushed ensures Reachable(roots, edges, n) {
      StepIsReachable(roots, edges, queue[0], n);
    }
    forall n | n in queue[1..] ensures n in queue {
    }
  }

  lemma SkipKeepsFrontier(seen: set<string>, queue: seq<string>, roots: seq<string>, edges: seq<Edge>)
    requires queue != [] && queue[0] in seen
    requires Frontier(seen, queue, roots, edges) && AllReachable(seen, queue, roots, edges)
    ensures Frontier(seen, queue[1..], roots, edges) && AllReachable(seen, queue[1..], roots, edges)
  {
    assert queue == [queue[0]] + queue[1..];
  }

  ghost predicate Searching(seen: set<string>, queue: seq<string>, roots: seq<string>, edges: seq<Edge>) {
    Frontier(seen, queue, roots, edges) && AllReachable(seen, queue, roots, edges)
  }

  ghost function Unknown(seen: set<string>, roots: seq<string>, edges: seq<Edge>): set<string> {
    Roots(roots) + Targets(edges) - seen
  }

  lemma Explore(seen: set<string>, queue: seq<string>, children: seq<string>, pushed: seq<string>,
                roots: seq<string>, edges: seq<Edge>)
    requires queue != [] && queue[0] !in seen && Searching(seen, queue, roots, edges)
    requires forall c :: c in children <==> Edge(queue[0], c) in edges
    requires forall n :: n in pushed <==> n in children && n !in seen + {queue[0]}
    ensures Searching(seen + {queue[0]}, queue[1..] + pushed, roots, edges)
    ensures |Unknown(seen + {queue[0]}, roots, edges)| < |Unknown(seen, roots, edges)|
  {
    ExploreKeepsFrontier(seen, queue, children, pushed, roots, edges);
    ExploreKeepsReachable(seen, queue, children, pushed, roots, edges);
    assert queue[0] in queue;
    ReachableIsKnown(roots, edges, queue[0]);
    assert Unknown(seen + {queue[0]}, roots, edges) == Unknown(seen, roots, edges) - {queue[0]};
  }

  lemma SearchDone(seen: set<string>, roots: seq<string>, edges: seq<Edge>)
    requires Searching(seen, [], roots, edges)
    ensures forall n :: n in seen <==> Reachable(roots, edges, n)
  {
    ClosedHoldsReachable(seen, roots, edges);
  }

  /** The nodes found are exactly those with a path from some root. */
  method Traverse(rootPaths: seq<string>, edges: seq<Edge>) returns (seen: set<string>)
    ensures forall n :: n in seen <==> Reachable(rootPaths, edges, n)
  {
    var adjacency := BuildAdjacency(edges);
    seen := {};
    var queue := rootPaths;
    forall r | r in rootPaths ensures Reachable(rootPaths, edges, r) {
      RootIsReachable(rootPaths, edges, r);
    }
    while |queue| > 0
      invariant Searching(seen, queue, rootPaths, edges)
      decreases |Unknown(seen, rootPaths, edges)|, |queue|
    {
      var current := queue[0];
      if current in seen {
        SkipKeepsFrontier(seen, queue, rootPaths, edges);
        queue := queue[1..];
      } else {
        var children := ChildrenOf(adjacency, current);
        var pushed := Unseen(children, seen + {current});
        Explore(seen, queue, children, pushed, rootPaths, edges);
        queue := queue[1..] + pushed;
        seen := seen + {current};
      }
    }
    SearchDone(seen, rootPaths, edges);
  }

  // ----- roots and classes -----

  datatype RootKind =
    | PackageManifest | PackageExport | PackageScript | SveltekitRoute | Config
    | RustRoot | Test | TypeDeclaration | StaticAsset | Allowlist

  datatype Root = Root(path: string, kind: RootKind)

  datatype Class =
    | ProductionReachable | ExportBarrelOnly | ScriptOnly | TestOnly | StaticRoot
    | GeneratedVendor | AlreadyDeleted | StrongDead | Ignored

  datatype FileKind = Source | Asset | ConfigFile | Manifest | Doc | Other

  /** What path patterns and the allowlist say about a file; uninterpreted here. */
  datatype Facts = Facts(
    kind: string -> FileKind,
    allowlisted: string -> Option<Class>,
    isSkill: string -> bool,
    isGenerated: string -> bool,
    isBarrel: string -> bool,
    isStatic: string -> bool
  )

  const PRODUCTION_KINDS: set<RootKind> :=
    {PackageManifest, PackageExport, SveltekitRoute, Config, RustRoot, TypeDeclaration, Allowlist}

  function PathsOfKind(roots: seq<Root>, kinds: set<RootKind>): seq<string> {
    if roots == [] then []
    else
      PathsOfKind(roots[..|roots| - 1], kinds)
      + (if roots[|roots| - 1].kind in kinds then [roots[|roots| - 1].path] else [])
  }

  method RootPathsByKind(roots: seq<Root>, kinds: set<RootKind>) returns (paths: seq<string>)
    ensures paths == PathsOfKind(roots, kinds)
  {
    paths := [];
    for i := 0 to |roots|
      invariant paths == PathsOfKind(roots[..i], kinds)
    {
      assert roots[..i + 1][..i] == roots[..i];
      if roots[i].kind in kinds {
        paths := paths + [roots[i].path];
      }
    }
    assert roots[..|roots|] == roots;
  }

  lemma {:induction false} PathsOfKindHolds(roots: seq<Root>, kinds: set<RootKind>, path: string)
    ensures path in PathsOfKind(roots, kinds) <==> exists r :: r in roots && r.kind in kinds && r.path == path
  {
    if roots == [] {
    } else {
      var last := roots[|roots| - 1];
      PathsOfKindHolds(roots[..|roots| - 1], kinds, path);
      assert roots == roots[..|roots| - 1] + [last];
      assert last in roots;
    }
  }

  /** Every file the allowlist matches is a root of its own. */
  function WithAllowlist(roots: seq<Root>, files: seq<string>, facts: Facts): seq<Root> {
    if files == [] then roots
    else
      var rest := WithAllowlist(roots, files[..|files| - 1], facts);
      var file := files[|files| - 1];
      if facts.allowlisted(file).Some? then rest + [Root(file, Allowlist)] else rest
  }

  lemma {:induction false} AllowlistedIsRoot(roots: seq<Root>, files: seq<string>, facts: Facts, file: string)
    requires file in files && facts.allowlisted(file).Some?
    ensures Root(file, Allowlist) in WithAllowlist(roots, files, facts)
  {
    if files[|files| - 1] == file {
    } else {
      assert files == files[..|files| - 1] + [files[|files| - 1]];
      AllowlistedIsRoot(roots, files[..|files| - 1], facts, file);
    }
  }

  function DirectEdges(edges: seq<Edge>, facts: Facts): seq<Edge> {
    if edges == [] then []
    else (if facts.isBarrel(edges[0].from) then [] else [edges[0]]) + DirectEdges(edges[1..], facts)
  }

  datatype Reach = Reach(
    production: set<string>, direct: set<string>, exported: set<string>,
    script: set<string>, test: set<string>, static_: set<string>, barrelConsumed: set<string>
  )

  /** The class of one file, if it is listed at all. */
  function Classify(file: string, facts: Facts, reach: Reach): Option<Class> {
    var kind := facts.kind(file);
    if facts.isSkill(file) then Some(Ignored)
    else if kind.Doc? || kind.Other? || kind.Manifest? || kind.ConfigFile? then None
    else if facts.allowlisted(file).Some? then facts.allowlisted(file)
    else if facts.isGenerated(file) then Some(GeneratedVendor)
    else if
      && file in reach.production && file !in reach.direct && file !in reach.exported
      && !facts.isBarrel(file) && file !in reach.barrelConsumed && kind.Source?
    then Some(ExportBarrelOnly)
    else if file in reach.production then Some(ProductionReachable)
    else if file in reach.script then Some(ScriptOnly)
    else if file in reach.test then Some(TestOnly)
    else if file in reach.static_ || facts.isStatic(file) then Some(StaticRoot)
    else if kind.Source? then Some(StrongDead)
    else None
  }

  datatype Candidate = Candidate(path: string, classification: Class)

  function Candidates(files: seq<string>, facts: Facts, reach: Reach): seq<Candidate> {
    if files == [] then []
    else
      var file := files[|files| - 1];
      Candidates(files[..|files| - 1], facts, reach)
      + (match Classify(file, facts, reach) case Some(c) => [Candidate(file, c)] case None => [])
  }

  ghost predicate Exact(nodes: set<string>, roots: seq<string>, edges: seq<Edge>) {
    forall n :: n in nodes <==> Reachable(roots, edges, n)
  }

  /** The six traversals of the analysis. */
  ghost predicate ReachOk(reach: Reach, roots: seq<Root>, edges: seq<Edge>, facts: Facts) {
    && Exact(reach.production, PathsOfKind(roots, PRODUCTION_KINDS), edges)
    && Exact(reach.direct, PathsOfKind(roots, PRODUCTION_KINDS), DirectEdges(edges, facts))
    && Exact(reach.exported, PathsOfKind(roots, {PackageExport}), edges)
    && Exact(reach.script, PathsOfKind(roots, {PackageScript}), edges)
    && Exact(reach.test, PathsOfKind(roots, {Test}), edges)
    && Exact(reach.static_, PathsOfKind(roots, {StaticAsset}), edges)
  }

  ghost function ReachSet(roots: seq<string>, edges: seq<Edge>): set<string> {
    set n | n in Roots(roots) + Targets(edges) && Reachable(roots, edges, n)
  }

  lemma ReachSetIsExact(roots: seq<string>, edges: seq<Edge>)
    ensures Exact(ReachSet(roots, edges), roots, edges)
  {
    forall n | Reachable(roots, edges, n) ensures n in ReachSet(roots, edges) {
      ReachableIsKnown(roots, edges, n);
    }
  }

  lemma ExactIsReachSet(nodes: set<string>, roots: seq<string>, edges: seq<Edge>)
    requires Exact(nodes, roots, edges)
    ensures nodes == ReachSet(roots, edges)
  {
    ReachSetIsExact(roots, edges);
  }

  /** What the six traversals are to find. */
  ghost function ReachOf(roots: seq<Root>, edges: seq<Edge>, facts: Facts, barrelConsumed: set<string>): Reach {
    var production := PathsOfKind(roots, PRODUCTION_KINDS);
    Reach(ReachSet(production, edges), ReachSet(production, DirectEdges(edges, facts)),
          ReachSet(PathsOfKind(roots, {PackageExport}), edges), ReachSet(PathsOfKind(roots, {PackageScript}), edges),
          ReachSet(PathsOfKind(roots, {Test}), edges), ReachSet(PathsOfKind(roots, {StaticAsset}), edges),
          barrelConsumed)
  }

  lemma ReachOfIsOk(roots: seq<Root>, edges: seq<Edge>, facts: Facts, barrelConsumed: set<string>)
    ensures ReachOk(ReachOf(roots, edges, facts, barrelConsumed), roots, edges, facts)
  {
    ReachSetIsExact(PathsOfKind(roots, PRODUCTION_KINDS), edges);
    ReachSetIsExact(PathsOfKind(roots, PRODUCTION_KINDS), DirectEdges(edges, facts));
    ReachSetIsExact(PathsOfKind(roots, {PackageExport}), edges);
    ReachSetIsExact(PathsOfKind(roots, {PackageScript}), edges);
    ReachSetIsExact(PathsOfKind(roots, {Test}), edges);
    ReachSetIsExact(PathsOfKind(roots, {StaticAsset}), edges);
  }

  method AddAllowlistRoots(roots: seq<Root>, files: seq<string>, facts: Facts) returns (all: seq<Root>)
    ensures all == WithAllowlist(roots, files, facts)
  {
    all := roots;
    for i := 0 to |files|
      invariant all == WithAllowlist(roots, files[..i], facts)
    {
      assert files[..i + 1][..i] == files[..i];
      if facts.allowlisted(files[i]).Some? {
        all := all + [Root(files[i], Allowlist)];
      }
    }
    assert files[..|files|] == files;
  }

  method ComputeReach(roots: seq<Root>, edges: seq<Edge>, facts: Facts, barrelConsumed: set<string>)
      returns (reach: Reach)
    ensures reach == ReachOf(roots, edges, facts, barrelConsumed)
  {
    var productionRoots := RootPathsByKind(roots, PRODUCTION_KINDS);
    var exportRoots := RootPathsByKind(roots, {PackageExport});
    var scriptRoots := RootPathsByKind(roots, {PackageScript});
    var testRoots := RootPathsByKind(roots, {Test});
    var staticRoots := RootPathsByKind(roots, {StaticAsset});
    var production := Traverse(productionRoots, edges);
    ExactIsReachSet(production, productionRoots, edges);
    var direct := Traverse(productionRoots, DirectEdges(edges, facts));
    ExactIsReachSet(direct, productionRoots, DirectEdges(edges, facts));
    var exported := Traverse(exportRoots, edges);
    ExactIsReachSet(exported, exportRoots, edges);
    var script := Traverse(scriptRoots, edges);
    ExactIsReachSet(script, scriptRoots, edges);
    var test := Traverse(testRoots, edges);
    ExactIsReachSet(test, testRoots, edges);
    var static_ := Traverse(staticRoots, edges);
    ExactIsReachSet(static_, staticRoots, edges);
    reach := Reach(production, direct, exported, script, test, static_, barrelConsumed);
  }

  method AnalyzeDeadCode(files: seq<string>, collectedRoots: seq<Root>, edges: seq<Edge>, facts: Facts,
                         barrelConsumed: set<string>)
      returns (candidates: seq<Candidate>)
    ensures var roots := WithAllowlist(collectedRoots, files, facts);
      candidates == Candidates(files, facts, ReachOf(roots, edges, facts, barrelConsumed))
  {
    var roots := AddAllowlistRoots(collectedRoots, files, facts);
    var reach := ComputeReach(roots, edges, facts, barrelConsumed);
    candidates := [];
    for i := 0 to |files|
      invariant candidates == Candidates(files[..i], facts, reach)
    {
      assert files[..i + 1][..i] == files[..i];
      match Classify(files[i], facts, reach) {
        case Some(c) => candidates := candidates + [Candidate(files[i], c)];
        case None =>
      }
    }
    assert files[..|files|] == files;
  }

  // ----- what strong-dead means -----

  ghost predicate ReachableFromAnyRoot(roots: seq<Root>, edges: seq<Edge>, file: string) {
    exists r :: r in roots && Reachable([r.path], edges, file)
  }

  predicate IsClassified(files: seq<string>, facts: Facts, reach: Reach, file: string, c: Class) {
    file in files && Classify(file, facts, reach) == Some(c)
  }

  lemma {:induction false} CandidatesHold(files: seq<string>, facts: Facts, reach: Reach, file: string, c: Class)
    ensures Candidate(file, c) in Candidates(files, facts, reach) <==> IsClassified(files, facts, reach, file, c)
  {
    if files == [] {
    } else {
      CandidatesHold(files[..|files| - 1], facts, reach, file, c);
      assert files == files[..|files| - 1] + [files[|files| - 1]];
    }
  }

  ghost predicate ReachableFromKind(roots: seq<Root>, kinds: set<RootKind>, edges: seq<Edge>, file: string) {
    exists r :: r in roots && r.kind in kinds && Reachable([r.path], edges, file)
  }

  lemma KindReach(roots: seq<Root>, kinds: set<RootKind>, edges: seq<Edge>, file: string)
    ensures Reachable(PathsOfKind(roots, kinds), edges, file) <==> ReachableFromKind(roots, kinds, edges, file)
  {
    if Reachable(PathsOfKind(roots, kinds), edges, file) {
      var path :| IsPathTo(path, PathsOfKind(roots, kinds), edges, file);
      PathsOfKindHolds(roots, kinds, path[0]);
      var r :| r in roots && r.kind in kinds && r.path == path[0];
      assert IsPathTo(path, [r.path], edges, file);
    }
    if r :| r in roots && r.kind in kinds && Reachable([r.path], edges, file) {
      var path :| IsPathTo(path, [r.path], edges, file);
      PathsOfKindHolds(roots, kinds, r.path);
      assert IsPathTo(path, PathsOfKind(roots, kinds), edges, file);
    }
  }

  lemma EveryKindIsGrouped(kind: RootKind)
    ensures kind in PRODUCTION_KINDS || kind in {PackageScript} || kind in {Test} || kind in {StaticAsset}
  {
    match kind
    case PackageManifest =>
    case PackageExport =>
    case PackageScript =>
    case SveltekitRoute =>
    case Config =>
    case RustRoot =>
    case Test =>
    case TypeDeclaration =>
    case StaticAsset =>
    case Allowlist =>
  }

  /** The four groups of kinds leave no kind out. */
  lemma AnyRootIsSomeKind(roots: seq<Root>, edges: seq<Edge>, facts: Facts, reach: Reach, file: string)
    requires ReachOk(reach, roots, edges, facts)
    ensures (file in reach.production || file in reach.script || file in reach.test || file in reach.static_)
              <==> ReachableFromAnyRoot(roots, edges, file)
  {
    KindReach(roots, PRODUCTION_KINDS, edges, file);
    KindReach(roots, {PackageScript}, edges, file);
    KindReach(roots, {Test}, edges, file);
    KindReach(roots, {StaticAsset}, edges, file);
    if r :| r in roots && Reachable([r.path], edges, file) {
      EveryKindIsGrouped(r.kind);
    }
  }

  lemma AllowlistedIsReachable(roots: seq<Root>, files: seq<string>, facts: Facts, edges: seq<Edge>, file: string)
    requires file in files && facts.allowlisted(file).Some?
    ensures ReachableFromAnyRoot(WithAllowlist(roots, files, facts), edges, file)
  {
    AllowlistedIsRoot(roots, files, facts, file);
    RootIsReachable([file], edges, file);
    assert Reachable([Root(file, Allowlist).path], edges, file);
  }

  /**
   * A file reported strong-dead has a path from some root exactly when the allowlist says strong-dead
   * for it; every other strong-dead file has no path from a root of any kind.
   */
  lemma StrongDeadMeaning(files: seq<string>, collectedRoots: seq<Root>, edges: seq<Edge>, facts: Facts,
                          reach: Reach, file: string)
    requires var roots := WithAllowlist(collectedRoots, files, facts); ReachOk(reach, roots, edges, facts)
    requires Candidate(file, StrongDead) in Candidates(files, facts, reach)
    ensures facts.kind(file).Source? || facts.allowlisted(file).Some?
    ensures var roots := WithAllowlist(collectedRoots, files, facts);
      ReachableFromAnyRoot(roots, edges, file) <==> facts.allowlisted(file) == Some(StrongDead)
  {
    CandidatesHold(files, facts, reach, file, StrongDead);
    AnyRootIsSomeKind(WithAllowlist(collectedRoots, files, facts), edges, facts, reach, file);
    if facts.allowlisted(file).Some? {
      AllowlistedIsReachable(collectedRoots, files, facts, edges, file);
    }
  }

  /** Conversely, an unreachable source file that no earlier rule claims is reported. */
  lemma UnreachableSourceIsReported(files: seq<string>, collectedRoots: seq<Root>, edges: seq<Edge>, facts: Facts,
                                    reach: Reach, file: string)
    requires var roots := WithAllowlist(collectedRoots, files, facts); ReachOk(reach, roots, edges, facts)
    requires file in files && facts.kind(file).Source?
    requires !facts.isSkill(file) && !facts.isGenerated(file) && !facts.isStatic(file)
    requires !ReachableFromAnyRoot(WithAllowlist(collectedRoots, files, facts), edges, file)
    ensures Candidate(file, StrongDead) in Candidates(files, facts, reach)
  {
    CandidatesHold(files, facts, reach, file, StrongDead);
    AnyRootIsSomeKind(WithAllowlist(collectedRoots, files, facts), edges, facts, reach, file);
    assert facts.allowlisted(file).None? by {
      if facts.allowlisted(file).Some? {
        AllowlistedIsReachable(collectedRoots, files, facts, edges, file);
      }
    }
  }

  /** Barrel-only files are reachable from production, but every such path runs through a barrel. */
  lemma BarrelOnlyMeaning(files: seq<string>, roots: seq<Root>, edges: seq<Edge>, facts: Facts, reach: Reach,
                          file: string, path: seq<string>)
    requires ReachOk(reach, roots, edges, facts) && facts.allowlisted(file).None?
    requires Candidate(file, ExportBarrelOnly) in Candidates(files, facts, reach)
    ensures Reachable(PathsOfKind(roots, PRODUCTION_KINDS), edges, file)
    ensures IsPathTo(path, PathsOfKind(roots, PRODUCTION_KINDS), edges, file) ==>
              exists i :: 0 <= i < |path| - 1 && facts.isBarrel(path[i])
  {
    CandidatesHold(files, facts, reach, file, ExportBarrelOnly);
    if IsPathTo(path, PathsOfKind(roots, PRODUCTION_KINDS), edges, file)
      && forall i :: 0 <= i < |path| - 1 ==> !facts.isBarrel(path[i])
    {
      forall i | 0 < i < |path| ensures Edge(path[i - 1], path[i]) in DirectEdges(edges, facts) {
        DirectEdgesHold(edges, facts, Edge(path[i - 1], path[i]));
      }
      assert IsPathTo(path, PathsOfKind(roots, PRODUCTION_KINDS), DirectEdges(edges, facts), file);
    }
  }

  lemma {:induction false} DirectEdgesHold(edges: seq<Edge>, facts: Facts, e: Edge)
    ensures e in DirectEdges(edges, facts) <==> e in edges && !facts.isBarrel(e.from)
  {
    if edges == [] {
    } else {
      DirectEdgesHold(edges[1..], facts, e);
      assert edges == [edges[0]] + edges[1..];
    }
  }
}
