/**
 * What each class of the dead-code analysis says about a file, through paths from roots and the facts
 * about the file alone (scripts/dead-code/find-dead-code.ts).
 */
module DeadCodeClasses {
  import opened Wrappers
  import opened DeadCode

  /** Everything the analysis is given. */
  datatype Input = Input(
    files: seq<string>, collected: seq<Root>, edges: seq<Edge>, facts: Facts, barrelConsumed: set<string>)

  ghost function AllRoots(input: Input): seq<Root> {
    WithAllowlist(input.collected, input.files, input.facts)
  }

  ghost function Reached(input: Input): Reach {
    ReachOf(AllRoots(input), input.edges, input.facts, input.barrelConsumed)
  }

  ghost function Answer(input: Input): seq<Candidate> {
    Candidates(input.files, input.facts, Reached(input))
  }

  // ----- the vocabulary -----

  /** A collected root, or a file the allowlist matches. */
  ghost predicate IsRoot(input: Input, r: Root) {
    || r in input.collected
    || (r.kind == Allowlist && r.path in input.files && input.facts.allowlisted(r.path).Some?)
  }

  ghost predicate From(input: Input, kinds: set<RootKind>, file: string) {
    exists r :: IsRoot(input, r) && r.kind in kinds && Reachable([r.path], input.edges, file)
  }

  ghost predicate FromProduction(input: Input, file: string) {
    From(input, {PackageManifest, PackageExport, SveltekitRoute, Config, RustRoot, TypeDeclaration, Allowlist}, file)
  }

  /** Before its last file the path touches no barrel. */
  ghost predicate AvoidsBarrels(facts: Facts, path: seq<string>) {
    forall i :: 0 <= i < |path| - 1 ==> !facts.isBarrel(path[i])
  }

  ghost predicate DirectPath(input: Input, root: string, file: string, path: seq<string>) {
    IsPathTo(path, [root], input.edges, file) && AvoidsBarrels(input.facts, path)
  }

  ghost predicate DirectFromProduction(input: Input, file: string) {
    exists r, path ::
      && IsRoot(input, r) && DirectPath(input, r.path, file, path)
      && r.kind in {PackageManifest, PackageExport, SveltekitRoute, Config, RustRoot, TypeDeclaration, Allowlist}
  }

  /** A source file that production reaches through barrels only: not exported, itself no barrel, not used from one. */
  ghost predicate ThroughBarrelsOnly(input: Input, file: string) {
    && FromProduction(input, file) && !DirectFromProduction(input, file) && !From(input, {PackageExport}, file)
    && !input.facts.isBarrel(file) && file !in input.barrelConsumed && input.facts.kind(file) == Source
  }

  /** No skill, of a kind that is looked at, not on the allowlist and not generated. */
  ghost predicate Unclaimed(input: Input, file: string) {
    && !input.facts.isSkill(file)
    && input.facts.kind(file) in {Source, Asset}
    && input.facts.allowlisted(file) == None
    && !input.facts.isGenerated(file)
  }

  /** The facts alone decide the class: a skill, then the allowlist, then generated or vendored. */
  ghost predicate ClaimedAs(input: Input, file: string, c: Class) {
    if input.facts.isSkill(file) then c == Ignored
    else
      && input.facts.kind(file) in {Source, Asset}
      && match input.facts.allowlisted(file)
         case Some(listed) => c == listed
         case None => input.facts.isGenerated(file) && c == GeneratedVendor
  }

  ghost predicate IsListed(input: Input, file: string, c: Class) {
    Candidate(file, c) in Answer(input)
  }

  // ----- the six sets are these paths -----

  lemma {:induction false} RootsMeaning(collected: seq<Root>, files: seq<string>, facts: Facts, r: Root)
    ensures r in WithAllowlist(collected, files, facts)
       <==> r in collected || (r.kind == Allowlist && r.path in files && facts.allowlisted(r.path).Some?)
  {
    if files == [] {
    } else {
      var front, last := files[..|files| - 1], files[|files| - 1];
      RootsMeaning(collected, front, facts, r);
      assert files == front + [last];
      assert r == Root(last, Allowlist) <==> r.kind == Allowlist && r.path == last;
    }
  }

  lemma FromMeaning(input: Input, kinds: set<RootKind>, file: string)
    ensures From(input, kinds, file)
       <==> file in ReachSet(PathsOfKind(AllRoots(input), kinds), input.edges)
  {
    KindReach(AllRoots(input), kinds, input.edges, file);
    ReachSetIsExact(PathsOfKind(AllRoots(input), kinds), input.edges);
    forall r ensures IsRoot(input, r) <==> r in AllRoots(input) {
      RootsMeaning(input.collected, input.files, input.facts, r);
    }
    assert From(input, kinds, file) <==> ReachableFromKind(AllRoots(input), kinds, input.edges, file);
  }

  lemma DirectPathMeaning(input: Input, root: string, file: string, path: seq<string>)
    ensures DirectPath(input, root, file, path)
       <==> IsPathTo(path, [root], DirectEdges(input.edges, input.facts), file)
  {
    forall i | 0 < i < |path|
      ensures Edge(path[i - 1], path[i]) in DirectEdges(input.edges, input.facts)
         <==> Edge(path[i - 1], path[i]) in input.edges && !input.facts.isBarrel(path[i - 1])
    {
      DirectEdgesHold(input.edges, input.facts, Edge(path[i - 1], path[i]));
    }
    if IsPathTo(path, [root], DirectEdges(input.edges, input.facts), file) {
      forall i | 0 <= i < |path| - 1 ensures !input.facts.isBarrel(path[i]) {
        assert Edge(path[i + 1 - 1], path[i + 1]) in DirectEdges(input.edges, input.facts);
      }
    }
  }

  lemma DirectMeaning(input: Input, file: string)
    ensures DirectFromProduction(input, file)
       <==> file in ReachSet(PathsOfKind(AllRoots(input), PRODUCTION_KINDS), DirectEdges(input.edges, input.facts))
  {
    var direct := DirectEdges(input.edges, input.facts);
    KindReach(AllRoots(input), PRODUCTION_KINDS, direct, file);
    ReachSetIsExact(PathsOfKind(AllRoots(input), PRODUCTION_KINDS), direct);
    forall r ensures IsRoot(input, r) <==> r in AllRoots(input) {
      RootsMeaning(input.collected, input.files, input.facts, r);
    }
    forall r: Root, path ensures DirectPath(input, r.path, file, path) <==> IsPathTo(path, [r.path], direct, file) {
      DirectPathMeaning(input, r.path, file, path);
    }
    if DirectFromProduction(input, file) {
      var r, path :| IsRoot(input, r) && DirectPath(input, r.path, file, path) && r.kind in PRODUCTION_KINDS;
      assert Reachable([r.path], direct, file);
    }
    if ReachableFromKind(AllRoots(input), PRODUCTION_KINDS, direct, file) {
      var r :| r in AllRoots(input) && r.kind in PRODUCTION_KINDS && Reachable([r.path], direct, file);
      var path :| IsPathTo(path, [r.path], direct, file);
      assert IsRoot(input, r) && DirectPath(input, r.path, file, path);
    }
  }

  // ----- one class after the other -----

  /** The facts decide, or where the file can be reached from. */
  ghost predicate ReachedAs(input: Input, file: string, c: Class) {
    match c
    case ExportBarrelOnly => ThroughBarrelsOnly(input, file)
    case ProductionReachable => FromProduction(input, file) && !ThroughBarrelsOnly(input, file)
    case ScriptOnly => !FromProduction(input, file) && From(input, {PackageScript}, file)
    case TestOnly => !FromProduction(input, file) && !From(input, {PackageScript}, file) && From(input, {Test}, file)
    case StaticRoot =>
      && !FromProduction(input, file) && !From(input, {PackageScript}, file) && !From(input, {Test}, file)
      && (From(input, {StaticAsset}, file) || input.facts.isStatic(file))
    case StrongDead =>
      && !FromProduction(input, file) && !From(input, {PackageScript}, file) && !From(input, {Test}, file)
      && !From(input, {StaticAsset}, file) && !input.facts.isStatic(file) && input.facts.kind(file) == Source
    case _ => false
  }

  ghost predicate HasClass(input: Input, file: string, c: Class) {
    ClaimedAs(input, file, c) || (Unclaimed(input, file) && ReachedAs(input, file, c))
  }

  lemma SetsMeaning(input: Input, file: string)
    ensures FromProduction(input, file) <==> file in Reached(input).production
    ensures DirectFromProduction(input, file) <==> file in Reached(input).direct
    ensures From(input, {PackageExport}, file) <==> file in Reached(input).exported
    ensures From(input, {PackageScript}, file) <==> file in Reached(input).script
    ensures From(input, {Test}, file) <==> file in Reached(input).test
    ensures From(input, {StaticAsset}, file) <==> file in Reached(input).static_
    ensures Reached(input).barrelConsumed == input.barrelConsumed
  {
    FromMeaning(input, PRODUCTION_KINDS, file);
    DirectMeaning(input, file);
    FromMeaning(input, {PackageExport}, file);
    FromMeaning(input, {PackageScript}, file);
    FromMeaning(input, {Test}, file);
    FromMeaning(input, {StaticAsset}, file);
  }

  lemma UnclaimedClass(input: Input, file: string, c: Class)
    requires Unclaimed(input, file)
    ensures Classify(file, input.facts, Reached(input)) == Some(c) <==> ReachedAs(input, file, c)
  {
    SetsMeaning(input, file);
  }

  lemma ClaimedClass(input: Input, file: string, c: Class)
    requires !Unclaimed(input, file)
    ensures Classify(file, input.facts, Reached(input)) == Some(c) <==> ClaimedAs(input, file, c)
  {
  }

  lemma ClassMeaning(input: Input, file: string, c: Class)
    ensures Classify(file, input.facts, Reached(input)) == Some(c) <==> HasClass(input, file, c)
  {
    if Unclaimed(input, file) {
      UnclaimedClass(input, file, c);
    } else {
      ClaimedClass(input, file, c);
    }
  }

  /** A file is listed with a class exactly when it is among the files and has the class. */
  lemma ListedMeaning(input: Input, file: string, c: Class)
    ensures IsListed(input, file, c) <==> file in input.files && HasClass(input, file, c)
  {
    CandidatesHold(input.files, input.facts, Reached(input), file, c);
    ClassMeaning(input, file, c);
  }

  lemma ProductionReachableMeaning(input: Input, file: string)
    requires file in input.files && Unclaimed(input, file)
    ensures IsListed(input, file, ProductionReachable)
       <==> FromProduction(input, file) && !ThroughBarrelsOnly(input, file)
  {
    ListedMeaning(input, file, ProductionReachable);
  }

  lemma ExportBarrelOnlyMeaning(input: Input, file: string)
    requires file in input.files && Unclaimed(input, file)
    ensures IsListed(input, file, ExportBarrelOnly) <==> ThroughBarrelsOnly(input, file)
  {
    ListedMeaning(input, file, ExportBarrelOnly);
  }

  lemma ScriptOnlyMeaning(input: Input, file: string)
    requires file in input.files && Unclaimed(input, file)
    ensures IsListed(input, file, ScriptOnly) <==> !FromProduction(input, file) && From(input, {PackageScript}, file)
  {
    ListedMeaning(input, file, ScriptOnly);
  }

  lemma TestOnlyMeaning(input: Input, file: string)
    requires file in input.files && Unclaimed(input, file)
    ensures IsListed(input, file, TestOnly)
       <==> !FromProduction(input, file) && !From(input, {PackageScript}, file) && From(input, {Test}, file)
  {
    ListedMeaning(input, file, TestOnly);
  }

  lemma StaticRootMeaning(input: Input, file: string)
    requires file in input.files && Unclaimed(input, file)
    ensures IsListed(input, file, StaticRoot)
       <==> && !FromProduction(input, file) && !From(input, {PackageScript}, file) && !From(input, {Test}, file)
            && (From(input, {StaticAsset}, file) || input.facts.isStatic(file))
  {
    ListedMeaning(input, file, StaticRoot);
  }

  /** A file the facts claim is listed with the class they give and no other, wherever it is reached from. */
  lemma ClaimedMeaning(input: Input, file: string, c: Class)
    requires file in input.files && !Unclaimed(input, file)
    ensures IsListed(input, file, c) <==> ClaimedAs(input, file, c)
  {
    ListedMeaning(input, file, c);
  }

  // ----- the list -----

  ghost predicate HasSomeClass(input: Input, file: string) {
    exists c :: HasClass(input, file, c)
  }

  /** The files that have a class, in the order given. */
  ghost function Classified(input: Input, files: seq<string>): seq<string> {
    if files == [] then []
    else
      var file := files[|files| - 1];
      Classified(input, files[..|files| - 1]) + if HasSomeClass(input, file) then [file] else []
  }

  function PathsOf(candidates: seq<Candidate>): seq<string> {
    seq(|candidates|, i requires 0 <= i < |candidates| => candidates[i].path)
  }

  lemma PathsOfSnoc(candidates: seq<Candidate>, last: Candidate)
    ensures PathsOf(candidates + [last]) == PathsOf(candidates) + [last.path]
  {
  }

  lemma {:induction false} ListedInOrder(input: Input, files: seq<string>)
    ensures PathsOf(Candidates(files, input.facts, Reached(input))) == Classified(input, files)
  {
    if files == [] {
    } else {
      var front, file := files[..|files| - 1], files[|files| - 1];
      ListedInOrder(input, front);
      var before := Candidates(front, input.facts, Reached(input));
      match Classify(file, input.facts, Reached(input)) {
        case Some(c) =>
          ClassMeaning(input, file, c);
          PathsOfSnoc(before, Candidate(file, c));
        case None =>
          forall c ensures !HasClass(input, file, c) {
            ClassMeaning(input, file, c);
          }
      }
    }
  }

  /** The answer lists exactly the files that have a class, each once and in the order of the files. */
  lemma AnswerIsClassified(input: Input)
    ensures PathsOf(Answer(input)) == Classified(input, input.files)
  {
    ListedInOrder(input, input.files);
  }

  /** No file has two classes. */
  lemma OneClass(input: Input, file: string, c: Class, d: Class)
    requires HasClass(input, file, c) && HasClass(input, file, d)
    ensures c == d
  {
    ClassMeaning(input, file, c);
    ClassMeaning(input, file, d);
  }
}
