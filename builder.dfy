/**
 * The Whiley project builder: it dispatches on the kind of build, and for an
 * incremental build collects the changed resources of the resource delta,
 * removes their problem markers, keeps the Whiley source files among them,
 * hands those to the compiler, and turns a syntax error reported by the
 * compiler into one problem marker on the file it names.
 *
 * Resources, the resource delta and markers are values; the marker store of
 * the workspace is a map from resource to its markers, and the compiler is a
 * function from the list of file locations to its outcome.
 */
module Build {
  import opened Wrappers

  // ---------------------------------------------------------------------
  // Resources and markers
  // ---------------------------------------------------------------------

  datatype ResourceType = File | Folder | ProjectResource | WorkspaceRoot

  /**
   * A workspace resource: its full path (segments), its type, its file
   * extension (None where the name has no '.') and the absolute path of its
   * raw location in the file system.
   */
  datatype Resource = Resource(path: seq<string>, kind: ResourceType, extension: Option<string>, location: string)

  /** x is r itself or lies below it: what a search of depth infinite from r reaches. */
  predicate Below(x: Resource, r: Resource)
  {
    |r.path| <= |x.path| && x.path[..|r.path|] == r.path
  }

  /** The problem marker type, a type declared as one of its subtypes, or another marker type. */
  datatype MarkerType = Problem | ProblemSubtype(name: string) | OtherMarker(name: string)

  predicate IsProblem(t: MarkerType)
  {
    t.Problem? || t.ProblemSubtype?
  }

  datatype Marker = Marker(markerType: MarkerType, line: int, message: string, priority: int, severity: int)

  const PRIORITY_HIGH := 2
  const SEVERITY_ERROR := 2

  type Markers = map<Resource, seq<Marker>>

  /** The markers of a resource; a resource the map does not mention has none. */
  function MarkersOn(m: Markers, r: Resource): seq<Marker>
  {
    if r in m then m[r] else []
  }

  /** Two marker stores that show every resource the same markers. */
  ghost predicate SameMarkers(a: Markers, b: Markers)
  {
    forall x :: MarkersOn(a, x) == MarkersOn(b, x)
  }

  function NonProblems(ms: seq<Marker>): seq<Marker>
  {
    if ms == [] then []
    else NonProblems(ms[..|ms| - 1]) + (if IsProblem(ms[|ms| - 1].markerType) then [] else [ms[|ms| - 1]])
  }

  function Problems(ms: seq<Marker>): seq<Marker>
  {
    if ms == [] then []
    else Problems(ms[..|ms| - 1]) + (if IsProblem(ms[|ms| - 1].markerType) then [ms[|ms| - 1]] else [])
  }

  /** Deleting the problem markers keeps exactly the other markers. */
  lemma {:induction false} NonProblemsMembers(ms: seq<Marker>)
    ensures forall k :: k in NonProblems(ms) <==> k in ms && !IsProblem(k.markerType)
  {
    if ms != [] {
      var init, last := ms[..|ms| - 1], ms[|ms| - 1];
      NonProblemsMembers(init);
      assert ms == init + [last];
    }
  }

  /** A marker list without problem markers is left as it is, and holds no problems. */
  lemma {:induction false} NoProblemsFixed(ms: seq<Marker>)
    requires forall k :: k in ms ==> !IsProblem(k.markerType)
    ensures NonProblems(ms) == ms && Problems(ms) == []
  {
    if ms != [] {
      var init, last := ms[..|ms| - 1], ms[|ms| - 1];
      assert ms == init + [last];
      NoProblemsFixed(init);
    }
  }

  /** Deleting problem markers twice deletes nothing more, and leaves no problem marker. */
  lemma NonProblemsSpec(ms: seq<Marker>)
    ensures Problems(NonProblems(ms)) == []
    ensures NonProblems(NonProblems(ms)) == NonProblems(ms)
  {
    NonProblemsMembers(ms);
    NoProblemsFixed(NonProblems(ms));
  }

  lemma NonProblemsSnocProblem(ms: seq<Marker>, k: Marker)
    requires IsProblem(k.markerType)
    ensures NonProblems(ms + [k]) == NonProblems(ms)
    ensures Problems(ms + [k]) == Problems(ms) + [k]
  {
    assert (ms + [k])[..|ms|] == ms;
  }

  // ---------------------------------------------------------------------
  // clearMarkers
  // ---------------------------------------------------------------------

  /** deleteMarkers(PROBLEM, true, DEPTH_INFINITE) on r. */
  function ClearBelow(m: Markers, r: Resource): Markers
  {
    map x | x in m :: if Below(x, r) then NonProblems(m[x]) else m[x]
  }

  function ClearAll(m: Markers, rs: seq<Resource>): Markers
  {
    if rs == [] then m else ClearBelow(ClearAll(m, rs[..|rs| - 1]), rs[|rs| - 1])
  }

  predicate Covered(x: Resource, rs: seq<Resource>)
  {
    exists i :: 0 <= i < |rs| && Below(x, rs[i])
  }

  /**
   * After clearing, a resource that is one of rs or lies below one of them
   * has lost its problem markers and kept the others, in order; every other
   * resource keeps its markers.
   */
  lemma {:induction false} ClearAllSpec(m: Markers, rs: seq<Resource>)
    ensures ClearAll(m, rs).Keys == m.Keys
    ensures forall x ::
      MarkersOn(ClearAll(m, rs), x) == if Covered(x, rs) then NonProblems(MarkersOn(m, x)) else MarkersOn(m, x)
  {
    if rs != [] {
      var init, last := rs[..|rs| - 1], rs[|rs| - 1];
      ClearAllSpec(m, init);
      forall x
        ensures MarkersOn(ClearAll(m, rs), x) ==
          if Covered(x, rs) then NonProblems(MarkersOn(m, x)) else MarkersOn(m, x)
      {
        NonProblemsSpec(MarkersOn(m, x));
        assert Covered(x, rs) <==> Covered(x, init) || Below(x, last) by {
          if Covered(x, init) {
            var i :| 0 <= i < |init| && Below(x, init[i]);
            assert rs[i] == init[i];
          }
          if Covered(x, rs) {
            var i :| 0 <= i < |rs| && Below(x, rs[i]);
            if i < |init| {
              assert init[i] == rs[i];
            }
          }
        }
      }
    }
  }

  // ---------------------------------------------------------------------
  // The resource delta
  // ---------------------------------------------------------------------

  /** A resource delta: the resource it is about (possibly null) and its child deltas. */
  datatype Delta = Delta(resource: Option<Resource>, children: seq<Delta>)

  /** The resources of a delta tree in pre-order, null ones left out. */
  function PreOrder(d: Delta): seq<Resource>
    decreases d
  {
    (if d.resource.Some? then [d.resource.value] else []) + PreOrderAll(d.children)
  }

  function PreOrderAll(ds: seq<Delta>): seq<Resource>
    decreases ds
  {
    if ds == [] then [] else PreOrderAll(ds[..|ds| - 1]) + PreOrder(ds[|ds| - 1])
  }

  /** r is the resource of some node of the tree. */
  ghost predicate Occurs(r: Resource, d: Delta)
    decreases d
  {
    d.resource == Some(r) || exists i :: 0 <= i < |d.children| && Occurs(r, d.children[i])
  }

  /** The pre-order list holds exactly the resources of the tree's nodes. */
  lemma {:induction false} PreOrderComplete(r: Resource, d: Delta)
    ensures r in PreOrder(d) <==> Occurs(r, d)
    decreases d
  {
    PreOrderAllComplete(r, d.children);
  }

  lemma {:induction false} PreOrderAllComplete(r: Resource, ds: seq<Delta>)
    ensures r in PreOrderAll(ds) <==> exists i :: 0 <= i < |ds| && Occurs(r, ds[i])
    decreases ds
  {
    if ds != [] {
      var init := ds[..|ds| - 1];
      PreOrderAllComplete(r, init);
      PreOrderComplete(r, ds[|ds| - 1]);
      assert forall i :: 0 <= i < |init| ==> init[i] == ds[i];
    }
  }

  // ---------------------------------------------------------------------
  // identifyCompileableResources
  // ---------------------------------------------------------------------

  predicate IsCompileable(r: Resource)
  {
    r.kind == File && r.extension == Some("whiley")
  }

  /** A file whose name has no extension: getFileExtension() gives null. */
  predicate NoExtensionFile(r: Resource)
  {
    r.kind == File && r.extension.None?
  }

  /**
   * identifyCompileableResources as written: the FILE resources with
   * extension "whiley", in order. On a FILE without extension the call
   * getFileExtension().equals(..) throws a NullPointerException: None.
   */
  function Compileable(rs: seq<Resource>): Option<seq<Resource>>
  {
    if rs == [] then Some([])
    else
      var last := rs[|rs| - 1];
      match Compileable(rs[..|rs| - 1])
      case None => None
      case Some(fs) =>
        if NoExtensionFile(last) then None
        else if IsCompileable(last) then Some(fs + [last])
        else Some(fs)
  }

  /** The same filter with a missing extension read as "not a Whiley file". */
  function CompileableCorrected(rs: seq<Resource>): seq<Resource>
  {
    if rs == [] then []
    else CompileableCorrected(rs[..|rs| - 1]) + (if IsCompileable(rs[|rs| - 1]) then [rs[|rs| - 1]] else [])
  }

  /** a is b with some elements left out, the rest in their order. */
  predicate IsSubsequence<T(==)>(a: seq<T>, b: seq<T>)
  {
    if b == [] then a == []
    else (a != [] && a[|a| - 1] == b[|b| - 1] && IsSubsequence(a[..|a| - 1], b[..|b| - 1]))
         || IsSubsequence(a, b[..|b| - 1])
  }

  /**
   * The compileable resources are exactly the Whiley files among rs, in
   * their order: a subsequence of rs.
   */
  lemma {:induction false} CompileableCorrectedSpec(rs: seq<Resource>)
    ensures forall x :: x in CompileableCorrected(rs) <==> x in rs && IsCompileable(x)
    ensures IsSubsequence(CompileableCorrected(rs), rs)
  {
    if rs != [] {
      var init, last := rs[..|rs| - 1], rs[|rs| - 1];
      CompileableCorrectedSpec(init);
      assert rs == init + [last];
      var c := CompileableCorrected(init);
      if IsCompileable(last) {
        assert (c + [last])[..|c|] == c;
      } else {
        assert CompileableCorrected(rs) == c + [] == c;
      }
    }
  }

  /**
   * The filter as written fails exactly when rs holds a file without
   * extension, and otherwise agrees with the corrected one.
   */
  lemma {:induction false} CompileableAsWritten(rs: seq<Resource>)
    ensures Compileable(rs).None? <==> exists i :: 0 <= i < |rs| && NoExtensionFile(rs[i])
    ensures Compileable(rs).Some? ==> Compileable(rs).value == CompileableCorrected(rs)
  {
    if rs != [] {
      var init := rs[..|rs| - 1];
      CompileableAsWritten(init);
      assert forall i :: 0 <= i < |init| ==> init[i] == rs[i];
    }
  }

  /** A changed file named "Makefile" stops the incremental build. */
  lemma NoExtensionCounterexample()
    ensures Compileable([Resource(["p", "Makefile"], File, None, "/ws/p/Makefile")]).None?
    ensures CompileableCorrected([Resource(["p", "Makefile"], File, None, "/ws/p/Makefile")]) == []
  {
    var rs := [Resource(["p", "Makefile"], File, None, "/ws/p/Makefile")];
    assert rs[..0] == [];
  }

  // ---------------------------------------------------------------------
  // compile
  // ---------------------------------------------------------------------

  /** What the compiler does with a list of files: succeed, or throw a SyntaxError or an IOException. */
  datatype CompileResult =
    | Ok
    | SyntaxFailure(filename: string, start: int, msg: string)
    | IOFailure(cause: string)

  function Locations(rs: seq<Resource>): (files: seq<string>)
    ensures |files| == |rs| && forall i :: 0 <= i < |rs| ==> files[i] == rs[i].location
  {
    seq(|rs|, i requires 0 <= i < |rs| => rs[i].location)
  }

  /** The filename to resource map of compile. */
  function ResourceMap(rs: seq<Resource>): map<string, Resource>
  {
    if rs == [] then map[] else ResourceMap(rs[..|rs| - 1])[rs[|rs| - 1].location := rs[|rs| - 1]]
  }

  /**
   * The map sends the location of each compiled resource to the last
   * resource in the list with that location, and knows no other filename.
   */
  lemma {:induction false} ResourceMapSpec(rs: seq<Resource>)
    ensures forall f :: f in ResourceMap(rs) <==> exists i :: 0 <= i < |rs| && rs[i].location == f
    ensures forall f :: f in ResourceMap(rs) ==>
      exists i :: 0 <= i < |rs| && rs[i] == ResourceMap(rs)[f] && rs[i].location == f &&
                  forall j :: i < j < |rs| ==> rs[j].location != f
  {
    if rs != [] {
      var init, last := rs[..|rs| - 1], rs[|rs| - 1];
      ResourceMapSpec(init);
      assert forall i :: 0 <= i < |init| ==> init[i] == rs[i];
      forall f | f in ResourceMap(rs)
        ensures exists i :: 0 <= i < |rs| && rs[i] == ResourceMap(rs)[f] && rs[i].location == f &&
                  forall j :: i < j < |rs| ==> rs[j].location != f
      {
        if f == last.location {
          assert rs[|rs| - 1] == ResourceMap(rs)[f];
        } else {
          var i :| 0 <= i < |init| && init[i] == ResourceMap(init)[f] && init[i].location == f &&
                  forall j :: i < j < |init| ==> init[j].location != f;
          assert rs[i] == ResourceMap(rs)[f];
        }
      }
    }
  }

  /** calculateLineNumber: a stub that answers line 1 whatever the index. */
  function CalculateLineNumber(resource: Resource, index: int): (line: int)
    ensures line == 1
  {
    1
  }

  function ErrorMarker(line: int, msg: string): Marker
  {
    Marker(Problem, line, msg, PRIORITY_HIGH, SEVERITY_ERROR)
  }

  /** createMarker(PROBLEM) with its attributes set. */
  function AddMarker(m: Markers, r: Resource, k: Marker): Markers
  {
    m[r := MarkersOn(m, r) + [k]]
  }

  /** The markers after compile(rs), when the compiler answers result. */
  function CompileEffect(m: Markers, rs: seq<Resource>, result: CompileResult): Markers
  {
    match result
    case SyntaxFailure(f, start, msg) =>
      var resourceMap := ResourceMap(rs);
      if f in resourceMap
      then AddMarker(m, resourceMap[f], ErrorMarker(CalculateLineNumber(resourceMap[f], start), msg))
      else m
    case _ => m
  }

  /** The resource compile attaches the syntax error to, if any. */
  function Target(rs: seq<Resource>, result: CompileResult): Option<Resource>
  {
    if result.SyntaxFailure? && result.filename in ResourceMap(rs)
    then Some(ResourceMap(rs)[result.filename])
    else None
  }

  /**
   * A syntax error is attached exactly when it names the location of a file
   * handed to the compiler, and then to the last such file in the list; an
   * IOException, success and a syntax error on any other file attach nothing.
   */
  lemma TargetSpec(rs: seq<Resource>, result: CompileResult)
    ensures Target(rs, result).Some? <==>
      result.SyntaxFailure? && exists i :: 0 <= i < |rs| && rs[i].location == result.filename
    ensures Target(rs, result).Some? ==>
      exists i :: 0 <= i < |rs| && rs[i] == Target(rs, result).value && rs[i].location == result.filename &&
        forall j :: i < j < |rs| ==> rs[j].location != result.filename
  {
    ResourceMapSpec(rs);
  }

  /**
   * compile adds exactly one problem marker, at line 1 with the error's
   * message, to the target of the syntax error; no other resource changes.
   */
  lemma CompileEffectSpec(m: Markers, rs: seq<Resource>, result: CompileResult)
    ensures Target(rs, result).None? ==> CompileEffect(m, rs, result) == m
    ensures Target(rs, result).Some? ==>
      var r := Target(rs, result).value;
      && MarkersOn(CompileEffect(m, rs, result), r) == MarkersOn(m, r) + [ErrorMarker(1, result.msg)]
      && forall x :: x != r ==> MarkersOn(CompileEffect(m, rs, result), x) == MarkersOn(m, x)
  {
  }

  // ---------------------------------------------------------------------
  // incrementalBuild and build
  // ---------------------------------------------------------------------

  /** The markers after incrementalBuild(delta), for a given compiler. */
  function IncrementalEffect(m: Markers, delta: Delta, compiler: seq<string> -> CompileResult): Markers
  {
    var changed := PreOrder(delta);
    var cleared := ClearAll(m, changed);
    match Compileable(changed)
    case None => cleared
    case Some(files) => CompileEffect(cleared, files, compiler(Locations(files)))
  }

  lemma CompileableWithin(rs: seq<Resource>, x: Resource)
    requires Compileable(rs).Some? && x in Compileable(rs).value
    ensures x in rs
  {
    CompileableAsWritten(rs);
    CompileableCorrectedSpec(rs);
  }

  /** The resource an incremental build attaches a syntax error to, if any: one of the changed ones. */
  lemma TargetIsChanged(delta: Delta, compiler: seq<string> -> CompileResult)
    requires Compileable(PreOrder(delta)).Some?
    ensures var files := Compileable(PreOrder(delta)).value;
      Target(files, compiler(Locations(files))).Some? ==>
      Target(files, compiler(Locations(files))).value in PreOrder(delta)
  {
    var files := Compileable(PreOrder(delta)).value;
    var result := compiler(Locations(files));
    TargetSpec(files, result);
    if Target(files, result).Some? {
      CompileableWithin(PreOrder(delta), Target(files, result).value);
    }
  }

  /** Each of the cleared resources is left without problem markers. */
  lemma ClearedClean(m: Markers, rs: seq<Resource>, x: Resource)
    requires x in rs
    ensures Covered(x, rs)
    ensures Problems(MarkersOn(ClearAll(m, rs), x)) == []
    ensures NonProblems(MarkersOn(ClearAll(m, rs), x)) == MarkersOn(ClearAll(m, rs), x)
  {
    ClearAllSpec(m, rs);
    var i :| 0 <= i < |rs| && rs[i] == x;
    assert Below(x, rs[i]);
    NonProblemsSpec(MarkersOn(m, x));
  }

  /** The marker an incremental build reports, and the resource it goes on, if any. */
  function Reported(delta: Delta, compiler: seq<string> -> CompileResult): Option<(Resource, Marker)>
  {
    match Compileable(PreOrder(delta))
    case None => None
    case Some(files) =>
      var result := compiler(Locations(files));
      var target := Target(files, result);
      if target.Some? then Some((target.value, ErrorMarker(1, result.msg))) else None
  }

  function ReportedOn(reported: Option<(Resource, Marker)>, x: Resource): seq<Marker>
  {
    if reported.Some? && reported.value.0 == x then [reported.value.1] else []
  }

  /** The reported marker is a problem marker on one of the changed resources. */
  lemma ReportedSpec(delta: Delta, compiler: seq<string> -> CompileResult)
    ensures Reported(delta, compiler).Some? ==>
      Reported(delta, compiler).value.0 in PreOrder(delta) &&
      IsProblem(Reported(delta, compiler).value.1.markerType)
  {
    if Compileable(PreOrder(delta)).Some? {
      TargetIsChanged(delta, compiler);
    }
  }

  /** Each resource ends an incremental build with its cleared markers and then the reported one, if it is its. */
  lemma IncrementalShape(m: Markers, delta: Delta, compiler: seq<string> -> CompileResult, x: Resource)
    ensures MarkersOn(IncrementalEffect(m, delta, compiler), x) ==
      MarkersOn(ClearAll(m, PreOrder(delta)), x) + ReportedOn(Reported(delta, compiler), x)
  {
    var changed := PreOrder(delta);
    if Compileable(changed).Some? {
      var files := Compileable(changed).value;
      CompileEffectSpec(ClearAll(m, changed), files, compiler(Locations(files)));
    }
  }

  /**
   * After an incremental build, the changed resources carry at most one
   * problem marker between them: all of theirs were removed, and compile adds
   * at most one.
   */
  lemma AtMostOneProblem(m: Markers, delta: Delta, compiler: seq<string> -> CompileResult)
    ensures var after, changed := IncrementalEffect(m, delta, compiler), PreOrder(delta);
      && (forall x :: x in changed ==> |Problems(MarkersOn(after, x))| <= 1)
      && (forall x, y ::
            (x in changed && y in changed && |Problems(MarkersOn(after, x))| > 0 && |Problems(MarkersOn(after, y))| > 0) ==> x == y)
  {
    var changed := PreOrder(delta);
    var after := IncrementalEffect(m, delta, compiler);
    var reported := Reported(delta, compiler);
    ReportedSpec(delta, compiler);
    forall x | x in changed
      ensures |Problems(MarkersOn(after, x))| <= 1
      ensures |Problems(MarkersOn(after, x))| > 0 ==> reported.Some? && reported.value.0 == x
    {
      IncrementalShape(m, delta, compiler, x);
      ClearedClean(m, changed, x);
      var cleared := MarkersOn(ClearAll(m, changed), x);
      if reported.Some? && reported.value.0 == x {
        NonProblemsSnocProblem(cleared, reported.value.1);
      } else {
        assert cleared + [] == cleared;
      }
    }
  }

  /** A second clearing of the changed resources gives back the markers the first one left. */
  lemma ClearAgain(m: Markers, delta: Delta, compiler: seq<string> -> CompileResult, x: Resource)
    ensures MarkersOn(ClearAll(IncrementalEffect(m, delta, compiler), PreOrder(delta)), x) ==
      MarkersOn(ClearAll(m, PreOrder(delta)), x)
  {
    var changed := PreOrder(delta);
    var once := IncrementalEffect(m, delta, compiler);
    var reported := Reported(delta, compiler);
    ClearAllSpec(m, changed);
    ClearAllSpec(once, changed);
    IncrementalShape(m, delta, compiler, x);
    ReportedSpec(delta, compiler);
    var cleared := MarkersOn(ClearAll(m, changed), x);
    if reported.Some? && reported.value.0 == x {
      ClearedClean(m, changed, x);
      NonProblemsSnocProblem(cleared, reported.value.1);
    } else {
      assert MarkersOn(once, x) == cleared + [] == cleared;
      if Covered(x, changed) {
        NonProblemsSpec(MarkersOn(m, x));
      }
    }
  }

  /**
   * Running the same incremental build twice leaves every resource with the
   * markers it had after the first run: no problem marker is duplicated.
   */
  lemma IncrementalIdempotent(m: Markers, delta: Delta, compiler: seq<string> -> CompileResult)
    ensures SameMarkers(IncrementalEffect(IncrementalEffect(m, delta, compiler), delta, compiler),
                        IncrementalEffect(m, delta, compiler))
  {
    var once := IncrementalEffect(m, delta, compiler);
    forall x
      ensures MarkersOn(IncrementalEffect(once, delta, compiler), x) == MarkersOn(once, x)
    {
      IncrementalShape(once, delta, compiler, x);
      IncrementalShape(m, delta, compiler, x);
      ClearAgain(m, delta, compiler, x);
    }
  }

  /** The kinds of build the host asks for. */
  const FULL_BUILD := 6
  const AUTO_BUILD := 9
  const INCREMENTAL_BUILD := 10
  const CLEAN_BUILD := 15

  datatype Step = RunFull | RunClean | RunIncremental(delta: Delta)

  /** The steps build runs for a kind, given the delta the host has (None for null). */
  function Dispatch(kind: int, delta: Option<Delta>): (steps: seq<Step>)
    ensures steps == [] <==> kind !in {FULL_BUILD, AUTO_BUILD, INCREMENTAL_BUILD, CLEAN_BUILD}
    ensures forall d :: RunIncremental(d) in steps <==>
      (kind == INCREMENTAL_BUILD || kind == AUTO_BUILD) && delta == Some(d)
    ensures kind == FULL_BUILD || ((kind == INCREMENTAL_BUILD || kind == AUTO_BUILD) && delta.None?) ==>
      steps == [RunFull]
    ensures (kind == INCREMENTAL_BUILD || kind == AUTO_BUILD) && delta.Some? ==> steps == [RunIncremental(delta.value)]
    ensures kind == CLEAN_BUILD ==> steps == [RunClean, RunFull]
    ensures steps != [] ==> steps[|steps| - 1] != RunClean
  {
    if kind == FULL_BUILD then [RunFull]
    else if kind == INCREMENTAL_BUILD || kind == AUTO_BUILD then
      if delta.None? then [RunFull] else [RunIncremental(delta.value)]
    else if kind == CLEAN_BUILD then [RunClean, RunFull]
    else []
  }

  /** How build ends: it returns null, or a NullPointerException escapes it. */
  datatype Termination = ReturnedNull | ThrewNullPointer

  class Workspace {
    var markers: Markers

    constructor (markers: Markers)
      ensures this.markers == markers
    {
      this.markers := markers;
    }
  }

  class Builder {
    const workspace: Workspace
    const compiler: seq<string> -> CompileResult
    const bootPath: string
    const whileyPath: seq<string>

    /** The compiler built by initialiseCompiler is given; separator is File.separatorChar. */
    constructor (workspace: Workspace, compiler: seq<string> -> CompileResult, separator: char)
      ensures this.workspace == workspace && this.compiler == compiler
      ensures bootPath == "lib" + [separator] + "wyrt.jar"
      ensures whileyPath == [bootPath]
    {
      this.workspace := workspace;
      this.compiler := compiler;
      bootPath := "lib" + [separator] + "wyrt.jar";
      whileyPath := ["lib" + [separator] + "wyrt.jar"];
    }

    /**
     * build: runs the steps of Dispatch; delta is what getDelta gives (None
     * for null). The ghost steps record, in order, the build methods it ran.
     */
    method Build(kind: int, delta: Option<Delta>) returns (t: Termination, ghost steps: seq<Step>)
      modifies workspace
      ensures steps == Dispatch(kind, delta)
      ensures (kind == INCREMENTAL_BUILD || kind == AUTO_BUILD) && delta.Some? ==>
        workspace.markers == IncrementalEffect(old(workspace.markers), delta.value, compiler) &&
        (t == ReturnedNull <==> Compileable(PreOrder(delta.value)).Some?)
      ensures !((kind == INCREMENTAL_BUILD || kind == AUTO_BUILD) && delta.Some?) ==>
        workspace.markers == old(workspace.markers) && t == ReturnedNull
    {
      t := ReturnedNull;
      steps := [];
      if kind == FULL_BUILD {
        FullBuild();
        steps := steps + [RunFull];
      } else if kind == INCREMENTAL_BUILD || kind == AUTO_BUILD {
        if delta.None? {
          FullBuild();
          steps := steps + [RunFull];
        } else {
          var completed := IncrementalBuild(delta.value);
          steps := steps + [RunIncremental(delta.value)];
          if !completed {
            t := ThrewNullPointer;
          }
        }
      } else if kind == CLEAN_BUILD {
        CleanBuild();
        steps := steps + [RunClean];
        FullBuild();
        steps := steps + [RunFull];
      }
    }

    /** fullBuild: its body is empty. */
    method FullBuild()
      ensures unchanged(workspace)
    {
    }

    /** cleanBuild: it only prints a line. */
    method CleanBuild()
      ensures unchanged(workspace)
    {
    }

    /** incrementalBuild; completed is false where a NullPointerException escapes. */
    method IncrementalBuild(delta: Delta) returns (completed: bool)
      modifies workspace
      ensures workspace.markers == IncrementalEffect(old(workspace.markers), delta, compiler)
      ensures completed <==> Compileable(PreOrder(delta)).Some?
    {
      var resources := IdentifyChangedResources(delta);
      ClearMarkers(resources);
      var files := IdentifyCompileableResources(resources);
      if files.None? {
        return false;
      }
      Compile(files.value);
      return true;
    }

    /** compile: fills the filename to resource map, runs the compiler, reports a syntax error. */
    method Compile(compileableResources: seq<Resource>)
      modifies workspace
      ensures workspace.markers == CompileEffect(old(workspace.markers), compileableResources, compiler(Locations(compileableResources)))
    {
      var resourceMap: map<string, Resource> := map[];
      var files: seq<string> := [];
      var i := 0;
      while i < |compileableResources|
        invariant 0 <= i <= |compileableResources|
        invariant files == Locations(compileableResources[..i])
        invariant resourceMap == ResourceMap(compileableResources[..i])
      {
        assert compileableResources[..i + 1][..i] == compileableResources[..i];
        var resource := compileableResources[i];
        files := files + [resource.location];
        resourceMap := resourceMap[resource.location := resource];
        i := i + 1;
      }
      assert compileableResources[..i] == compileableResources;
      var result := compiler(files);
      match result {
        case SyntaxFailure(filename, start, msg) =>
          if filename in resourceMap {
            var resource := resourceMap[filename];
            var line := CalculateLineNumber(resource, start);
            SyntaxError(resource, line, msg);
          }
        case Ok =>
        case IOFailure(_) =>
      }
    }

    /** identifyChangedResources: the visitor adds every non-null resource and visits every child. */
    method IdentifyChangedResources(delta: Delta) returns (files: seq<Resource>)
      ensures files == PreOrder(delta)
    {
      files := Visit(delta, []);
    }

    /** delta.accept(visitor), appending to files. */
    method Visit(delta: Delta, files: seq<Resource>) returns (files': seq<Resource>)
      ensures files' == files + PreOrder(delta)
      decreases delta
    {
      files' := files;
      if delta.resource.Some? {
        files' := files' + [delta.resource.value];
      }
      ghost var start := files';
      var i := 0;
      while i < |delta.children|
        invariant 0 <= i <= |delta.children|
        invariant files' == start + PreOrderAll(delta.children[..i])
      {
        assert delta.children[..i + 1][..i] == delta.children[..i];
        files' := Visit(delta.children[i], files');
        i := i + 1;
      }
      assert delta.children[..i] == delta.children;
    }

    /** clearMarkers. */
    method ClearMarkers(resources: seq<Resource>)
      modifies workspace
      ensures workspace.markers == ClearAll(old(workspace.markers), resources)
    {
      var i := 0;
      while i < |resources|
        invariant 0 <= i <= |resources|
        invariant workspace.markers == ClearAll(old(workspace.markers), resources[..i])
      {
        assert resources[..i + 1][..i] == resources[..i];
        workspace.markers := ClearBelow(workspace.markers, resources[i]);
        i := i + 1;
      }
      assert resources[..i] == resources;
    }

    /** identifyCompileableResources; None where a NullPointerException escapes. */
    method IdentifyCompileableResources(resources: seq<Resource>) returns (files: Option<seq<Resource>>)
      ensures files == Compileable(resources)
    {
      var kept: seq<Resource> := [];
      var i := 0;
      while i < |resources|
        invariant 0 <= i <= |resources|
        invariant Compileable(resources[..i]) == Some(kept)
      {
        assert resources[..i + 1][..i] == resources[..i];
        var resource := resources[i];
        if resource.kind == File {
          if resource.extension.None? {
            CompileableAsWritten(resources);
            assert NoExtensionFile(resources[i]);
            return None;
          }
          if resource.extension.value == "whiley" {
            kept := kept + [resource];
          }
        }
        i := i + 1;
      }
      assert resources[..i] == resources;
      files := Some(kept);
    }

    /** syntaxError: one problem marker with the line, the message, high priority and error severity. */
    method SyntaxError(resource: Resource, line: int, msg: string)
      modifies workspace
      ensures workspace.markers == AddMarker(old(workspace.markers), resource, ErrorMarker(line, msg))
    {
      var m := Marker(Problem, line, msg, PRIORITY_HIGH, SEVERITY_ERROR);
      workspace.markers := workspace.markers[resource := MarkersOn(workspace.markers, resource) + [m]];
    }
  }
}
