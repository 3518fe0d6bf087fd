/**
 * A Whiley project: the namespace that the compiler resolves names against.
 * It holds an ordered list of binary roots (the output folder, then the
 * libraries of the classpath) and a list of source roots. It answers lookups
 * from the binary roots only: exists and get take the first root that has the
 * key, and match returns the union over all binary roots. It carries one build
 * rule per source root, compiling it into the output root, or into the source
 * root itself when there is no output root. The content registry classifies
 * an entry by its suffix.
 *
 * The roots themselves (folders, jar files) and the decoder of WyIL files are
 * not part of this model: a root is a listing of (key, entry) pairs, and the
 * code that opens, flushes or refreshes a root is given as a function.
 */
module Project {
  import opened Wrappers

  type Id = string
  type Path = string

  /** The content types the registry knows, and any other. */
  datatype ContentType = WhileyType | WyilType | OtherType(name: string)

  /** What a root is asked about: an identifier of a given content type. */
  type Key = (Id, ContentType)

  /** A content filter: which (identifier, content type) pairs it admits. */
  type ContentFilter = Key -> bool

  /** A decoded WyIL module; what it holds is not part of this model. */
  type WyilFile(==)

  /** An entry of a root; the registry associates it with a content type in place. */
  class Entry {
    const id: Id
    const suffix: string
    const contents: seq<bv8>
    var contentType: Option<ContentType>
    var value: Option<WyilFile>

    constructor (id: Id, suffix: string, contents: seq<bv8>)
      ensures this.id == id && this.suffix == suffix && this.contents == contents
      ensures contentType == None && value == None
    {
      this.id := id;
      this.suffix := suffix;
      this.contents := contents;
      contentType := None;
      value := None;
    }

    method Associate(contentType: ContentType, value: Option<WyilFile>)
      modifies this
      ensures this.contentType == Some(contentType) && this.value == value
    {
      this.contentType := Some(contentType);
      this.value := value;
    }
  }

  // ---------------------------------------------------------------------
  // Roots
  // ---------------------------------------------------------------------

  /** A root: where it lives, and what it lists under which key, in listing order. */
  datatype Root = Root(location: Path, listing: seq<(Key, Entry)>)

  predicate RootExists(r: Root, k: Key)
  {
    exists i :: 0 <= i < |r.listing| && r.listing[i].0 == k
  }

  function FirstWithKey(listing: seq<(Key, Entry)>, k: Key): (e: Option<Entry>)
    ensures e.Some? <==> exists i :: 0 <= i < |listing| && listing[i].0 == k
  {
    if listing == [] then None
    else if listing[0].0 == k then Some(listing[0].1)
    else
      var e := FirstWithKey(listing[1..], k);
      assert forall i :: 1 <= i < |listing| ==> listing[i] == listing[1..][i - 1];
      e
  }

  function RootGet(r: Root, k: Key): Option<Entry>
  {
    FirstWithKey(r.listing, k)
  }

  function Select(listing: seq<(Key, Entry)>, f: ContentFilter): seq<Entry>
  {
    if listing == [] then []
    else Select(listing[..|listing| - 1], f) +
         (if f(listing[|listing| - 1].0) then [listing[|listing| - 1].1] else [])
  }

  function RootSelect(r: Root, f: ContentFilter): seq<Entry>
  {
    Select(r.listing, f)
  }

  function RootMatch(r: Root, f: ContentFilter): set<Id>
  {
    set i | 0 <= i < |r.listing| && f(r.listing[i].0) :: r.listing[i].0.0
  }

  // ---------------------------------------------------------------------
  // Namespace reads
  // ---------------------------------------------------------------------

  /** get(filter): the roots' results, concatenated in root order. */
  function SelectAll(roots: seq<Root>, f: ContentFilter): seq<Entry>
  {
    if roots == [] then [] else SelectAll(roots[..|roots| - 1], f) + RootSelect(roots[|roots| - 1], f)
  }

  lemma {:induction false} SelectAllAppend(a: seq<Root>, b: seq<Root>, f: ContentFilter)
    ensures SelectAll(a + b, f) == SelectAll(a, f) + SelectAll(b, f)
    decreases |b|
  {
    if b == [] {
      assert a + b == a;
    } else {
      assert (a + b)[..|a + b| - 1] == a + b[..|b| - 1];
      assert (a + b)[|a + b| - 1] == b[|b| - 1];
      SelectAllAppend(a, b[..|b| - 1], f);
    }
  }

  /** An entry is returned by get(filter) exactly when some binary root returns it. */
  lemma {:induction false} SelectAllMembership(roots: seq<Root>, f: ContentFilter, e: Entry)
    ensures e in SelectAll(roots, f) <==> exists i :: 0 <= i < |roots| && e in RootSelect(roots[i], f)
  {
    if roots != [] {
      var init := roots[..|roots| - 1];
      SelectAllMembership(init, f, e);
      assert forall i :: 0 <= i < |init| ==> init[i] == roots[i];
    }
  }

  // ---------------------------------------------------------------------
  // Classpath
  // ---------------------------------------------------------------------

  /**
   * A classpath entry. A container entry carries what JavaCore resolves it
   * to: the JRE container, nothing (null), or a list of further entries.
   */
  datatype ClasspathEntry =
    | LibraryEntry(path: Path)
    | SourceEntry(path: Path)
    | ContainerEntry(path: Path, container: Container)
    | ProjectEntry(path: Path)
    | VariableEntry(path: Path)

  datatype Container = JreContainer | Unresolved | Resolved(entries: seq<ClasspathEntry>)

  /** The binary roots that initialise adds for a list of classpath entries. */
  function LibraryRoots(es: seq<ClasspathEntry>, openJar: Path -> Option<Root>): seq<Root>
    decreases es
  {
    if es == [] then [] else LibraryRoots(es[..|es| - 1], openJar) + EntryLibraryRoots(es[|es| - 1], openJar)
  }

  /** The binary roots that the switch of initialise adds for one entry. */
  function EntryLibraryRoots(e: ClasspathEntry, openJar: Path -> Option<Root>): seq<Root>
    decreases e
  {
    match e
    case LibraryEntry(p) => if openJar(p).Some? then [openJar(p).value] else []
    case ContainerEntry(_, Resolved(cs)) => LibraryRoots(cs, openJar)
    case _ => []
  }

  /** The source roots that initialise adds for a list of classpath entries. */
  function SourceRoots(es: seq<ClasspathEntry>, openFolder: Path -> Root): seq<Root>
    decreases es
  {
    if es == [] then [] else SourceRoots(es[..|es| - 1], openFolder) + EntrySourceRoots(es[|es| - 1], openFolder)
  }

  /** The source roots that the switch of initialise adds for one entry. */
  function EntrySourceRoots(e: ClasspathEntry, openFolder: Path -> Root): seq<Root>
    decreases e
  {
    match e
    case SourceEntry(p) => [openFolder(p)]
    case ContainerEntry(_, Resolved(cs)) => SourceRoots(cs, openFolder)
    case _ => []
  }

  lemma LibraryRootsStep(es: seq<ClasspathEntry>, i: nat, openJar: Path -> Option<Root>)
    requires i < |es|
    ensures LibraryRoots(es[..i + 1], openJar) == LibraryRoots(es[..i], openJar) + EntryLibraryRoots(es[i], openJar)
  {
    assert es[..i + 1][..i] == es[..i];
  }

  lemma SourceRootsStep(es: seq<ClasspathEntry>, i: nat, openFolder: Path -> Root)
    requires i < |es|
    ensures SourceRoots(es[..i + 1], openFolder) == SourceRoots(es[..i], openFolder) + EntrySourceRoots(es[i], openFolder)
  {
    assert es[..i + 1][..i] == es[..i];
  }

  /**
   * The reference reading of a classpath: every resolved container other
   * than the JRE is replaced by its entries, recursively, and the JRE
   * container and unresolved containers disappear.
   */
  function Flatten(es: seq<ClasspathEntry>): (flat: seq<ClasspathEntry>)
    ensures forall i :: 0 <= i < |flat| ==> !flat[i].ContainerEntry?
  {
    if es == [] then []
    else
      Flatten(es[..|es| - 1]) +
      match es[|es| - 1]
      case ContainerEntry(_, Resolved(cs)) => Flatten(cs)
      case ContainerEntry(_, _) => []
      case e => [e]
  }

  /** On a flat classpath: each library that opens, in order; the others are skipped. */
  function OpenLibraries(flat: seq<ClasspathEntry>, openJar: Path -> Option<Root>): seq<Root>
  {
    if flat == [] then []
    else
      OpenLibraries(flat[..|flat| - 1], openJar) +
      (var e := flat[|flat| - 1];
       if e.LibraryEntry? && openJar(e.path).Some? then [openJar(e.path).value] else [])
  }

  /** On a flat classpath: the folder of each source entry, in order. */
  function OpenSources(flat: seq<ClasspathEntry>, openFolder: Path -> Root): seq<Root>
  {
    if flat == [] then []
    else
      OpenSources(flat[..|flat| - 1], openFolder) +
      (var e := flat[|flat| - 1]; if e.SourceEntry? then [openFolder(e.path)] else [])
  }

  lemma {:induction false} OpenLibrariesAppend(a: seq<ClasspathEntry>, b: seq<ClasspathEntry>, openJar: Path -> Option<Root>)
    ensures OpenLibraries(a + b, openJar) == OpenLibraries(a, openJar) + OpenLibraries(b, openJar)
    decreases |b|
  {
    if b == [] {
      assert a + b == a;
    } else {
      assert (a + b)[..|a + b| - 1] == a + b[..|b| - 1];
      assert (a + b)[|a + b| - 1] == b[|b| - 1];
      OpenLibrariesAppend(a, b[..|b| - 1], openJar);
    }
  }

  lemma {:induction false} OpenSourcesAppend(a: seq<ClasspathEntry>, b: seq<ClasspathEntry>, openFolder: Path -> Root)
    ensures OpenSources(a + b, openFolder) == OpenSources(a, openFolder) + OpenSources(b, openFolder)
    decreases |b|
  {
    if b == [] {
      assert a + b == a;
    } else {
      assert (a + b)[..|a + b| - 1] == a + b[..|b| - 1];
      assert (a + b)[|a + b| - 1] == b[|b| - 1];
      OpenSourcesAppend(a, b[..|b| - 1], openFolder);
    }
  }

  /**
   * The binary roots from the classpath are the libraries of the flattened
   * classpath that open, in classpath order: containers are expanded in
   * place, the JRE container and unresolved ones add nothing, and source,
   * project and variable entries add no binary root.
   */
  lemma {:induction false} LibraryRootsAreOpenLibraries(es: seq<ClasspathEntry>, openJar: Path -> Option<Root>)
    ensures LibraryRoots(es, openJar) == OpenLibraries(Flatten(es), openJar)
  {
    if es != [] {
      var init, last := es[..|es| - 1], es[|es| - 1];
      LibraryRootsAreOpenLibraries(init, openJar);
      match last
      case ContainerEntry(_, Resolved(cs)) =>
        LibraryRootsAreOpenLibraries(cs, openJar);
        OpenLibrariesAppend(Flatten(init), Flatten(cs), openJar);
      case ContainerEntry(_, _) =>
        assert Flatten(es) == Flatten(init) + [] == Flatten(init);
        assert LibraryRoots(es, openJar) == LibraryRoots(init, openJar) + [] == LibraryRoots(init, openJar);
      case _ =>
        OpenLibrariesAppend(Flatten(init), [last], openJar);
        assert OpenLibraries([last], openJar) == [] + OpenLibraries([last], openJar)[0..];
    }
  }

  /** Likewise the source roots are the source entries of the flattened classpath, in order. */
  lemma {:induction false} SourceRootsAreOpenSources(es: seq<ClasspathEntry>, openFolder: Path -> Root)
    ensures SourceRoots(es, openFolder) == OpenSources(Flatten(es), openFolder)
  {
    if es != [] {
      var init, last := es[..|es| - 1], es[|es| - 1];
      SourceRootsAreOpenSources(init, openFolder);
      match last
      case ContainerEntry(_, Resolved(cs)) =>
        SourceRootsAreOpenSources(cs, openFolder);
        OpenSourcesAppend(Flatten(init), Flatten(cs), openFolder);
      case ContainerEntry(_, _) =>
        assert Flatten(es) == Flatten(init) + [] == Flatten(init);
        assert SourceRoots(es, openFolder) == SourceRoots(init, openFolder) + [] == SourceRoots(init, openFolder);
      case _ =>
        OpenSourcesAppend(Flatten(init), [last], openFolder);
        assert OpenSources([last], openFolder) == [] + OpenSources([last], openFolder)[0..];
    }
  }

  // ---------------------------------------------------------------------
  // Build rules
  // ---------------------------------------------------------------------

  /** The include filter of the rule: "**" over Whiley files. */
  datatype Includes = Includes(pattern: string, contentType: ContentType)

  const AllWhileyFiles := Includes("**", WhileyType)

  /**
   * A reference to one of the project's root objects, by its position: the
   * rules share these objects with the root lists, so a rule sees every
   * flush or refresh of the root it names.
   */
  datatype RootRef = BinaryRoot(index: nat) | SourceRoot(index: nat)

  /** One add(...) of a StandardBuildRule: source root, includes, target root, target type. */
  datatype RuleMapping = RuleMapping(source: RootRef, includes: Includes, target: RootRef, targetType: ContentType)

  datatype StandardBuildRule = StandardBuildRule(mappings: seq<RuleMapping>)

  // ---------------------------------------------------------------------
  // The project
  // ---------------------------------------------------------------------

  class WhileyProject {
    var binaryRoots: seq<Root>
    var sourceRoots: seq<Root>
    var delta: seq<Entry>
    var rules: seq<StandardBuildRule>

    /** The root object a reference names, if there is one at that position. */
    function Deref(r: RootRef): (root: Option<Root>)
      reads this
      ensures root.Some? <==> (if r.BinaryRoot? then r.index < |binaryRoots| else r.index < |sourceRoots|)
    {
      match r
      case BinaryRoot(i) => if i < |binaryRoots| then Some(binaryRoots[i]) else None
      case SourceRoot(i) => if i < |sourceRoots| then Some(sourceRoots[i]) else None
    }

    /**
     * The constructor. outputLocation is the default output folder (None
     * where the workspace gives none), classpath the raw classpath, and
     * openFolder / openJar build the root of a folder or of a jar file
     * (None where the jar cannot be opened).
     */
    constructor (outputLocation: Option<Path>, classpath: seq<ClasspathEntry>,
                 openFolder: Path -> Root, openJar: Path -> Option<Root>)
      ensures binaryRoots ==
        (if outputLocation.Some? then [openFolder(outputLocation.value)] else []) + LibraryRoots(classpath, openJar)
      ensures sourceRoots == SourceRoots(classpath, openFolder)
      ensures delta == []
      ensures |rules| == 1 && |rules[0].mappings| == |sourceRoots|
      ensures forall i :: 0 <= i < |sourceRoots| ==>
        rules[0].mappings[i] ==
          RuleMapping(SourceRoot(i), AllWhileyFiles,
                      if outputLocation.Some? then BinaryRoot(0) else SourceRoot(i),
                      WyilType)
      ensures forall i :: 0 <= i < |sourceRoots| ==>
        Deref(rules[0].mappings[i].source) == Some(sourceRoots[i]) &&
        Deref(rules[0].mappings[i].target) ==
          Some(if outputLocation.Some? then openFolder(outputLocation.value) else sourceRoots[i])
    {
      binaryRoots := [];
      sourceRoots := [];
      delta := [];
      rules := [];
      new;
      var outputRoot: Option<Root> := None;
      if outputLocation.Some? {
        outputRoot := Some(openFolder(outputLocation.value));
        binaryRoots := binaryRoots + [outputRoot.value];
      }
      Initialise(classpath, openFolder, openJar);
      var mappings: seq<RuleMapping> := [];
      var i := 0;
      while i < |sourceRoots|
        invariant 0 <= i <= |sourceRoots|
        invariant |mappings| == i
        invariant forall j :: 0 <= j < i ==>
          mappings[j] == RuleMapping(SourceRoot(j), AllWhileyFiles,
                                     if outputRoot.Some? then BinaryRoot(0) else SourceRoot(j), WyilType)
      {
        if outputRoot.Some? {
          mappings := mappings + [RuleMapping(SourceRoot(i), AllWhileyFiles, BinaryRoot(0), WyilType)];
        } else {
          // without an output folder, each source root is its own target
          mappings := mappings + [RuleMapping(SourceRoot(i), AllWhileyFiles, SourceRoot(i), WyilType)];
        }
        i := i + 1;
      }
      rules := rules + [StandardBuildRule(mappings)];
    }

    /** initialise: walks the classpath, recursing into containers other than the JRE. */
    method Initialise(entries: seq<ClasspathEntry>, openFolder: Path -> Root, openJar: Path -> Option<Root>)
      modifies this
      ensures binaryRoots == old(binaryRoots) + LibraryRoots(entries, openJar)
      ensures sourceRoots == old(sourceRoots) + SourceRoots(entries, openFolder)
      ensures delta == old(delta) && rules == old(rules)
      decreases entries
    {
      var i := 0;
      while i < |entries|
        invariant 0 <= i <= |entries|
        invariant binaryRoots == old(binaryRoots) + LibraryRoots(entries[..i], openJar)
        invariant sourceRoots == old(sourceRoots) + SourceRoots(entries[..i], openFolder)
        invariant delta == old(delta) && rules == old(rules)
      {
        LibraryRootsStep(entries, i, openJar);
        SourceRootsStep(entries, i, openFolder);
        InitialiseEntry(entries[i], openFolder, openJar);
        i := i + 1;
      }
      assert entries[..i] == entries;
    }

    /** The switch of initialise, on one classpath entry. */
    method InitialiseEntry(e: ClasspathEntry, openFolder: Path -> Root, openJar: Path -> Option<Root>)
      modifies this
      ensures binaryRoots == old(binaryRoots) + EntryLibraryRoots(e, openJar)
      ensures sourceRoots == old(sourceRoots) + EntrySourceRoots(e, openFolder)
      ensures delta == old(delta) && rules == old(rules)
      decreases e
    {
      match e {
        case LibraryEntry(location) =>
          var jar := openJar(location);
          if jar.Some? {
            binaryRoots := binaryRoots + [jar.value];
          }
          // a jar that cannot be opened is ignored
        case SourceEntry(location) =>
          sourceRoots := sourceRoots + [openFolder(location)];
        case ContainerEntry(_, container) =>
          if container.Resolved? {
            Initialise(container.entries, openFolder, openJar);
          }
        case ProjectEntry(_) =>
        case VariableEntry(_) =>
      }
    }

    /** exists: some binary root holds the key; the source roots are not consulted. */
    method Exists(id: Id, ct: ContentType) returns (b: bool)
      ensures b <==> exists i :: 0 <= i < |binaryRoots| && RootExists(binaryRoots[i], (id, ct))
    {
      var i := 0;
      while i != |binaryRoots|
        invariant 0 <= i <= |binaryRoots|
        invariant forall j :: 0 <= j < i ==> !RootExists(binaryRoots[j], (id, ct))
      {
        if RootExists(binaryRoots[i], (id, ct)) {
          return true;
        }
        i := i + 1;
      }
      return false;
    }

    /** get(id, ct): the entry of the lowest-index binary root that has one, or null. */
    method Get(id: Id, ct: ContentType) returns (e: Option<Entry>)
      ensures e.None? <==> forall i :: 0 <= i < |binaryRoots| ==> RootGet(binaryRoots[i], (id, ct)).None?
      ensures e.Some? ==> exists i :: 0 <= i < |binaryRoots| && RootGet(binaryRoots[i], (id, ct)) == e &&
                                      forall j :: 0 <= j < i ==> RootGet(binaryRoots[j], (id, ct)).None?
    {
      var i := 0;
      while i != |binaryRoots|
        invariant 0 <= i <= |binaryRoots|
        invariant forall j :: 0 <= j < i ==> RootGet(binaryRoots[j], (id, ct)).None?
      {
        var found := RootGet(binaryRoots[i], (id, ct));
        if found.Some? {
          return found;
        }
        i := i + 1;
      }
      return None;
    }

    /** get(filter): every binary root's results, in root order. */
    method GetMatching(filter: ContentFilter) returns (r: seq<Entry>)
      ensures r == SelectAll(binaryRoots, filter)
    {
      r := [];
      var i := 0;
      while i != |binaryRoots|
        invariant 0 <= i <= |binaryRoots|
        invariant r == SelectAll(binaryRoots[..i], filter)
      {
        assert binaryRoots[..i + 1][..i] == binaryRoots[..i];
        r := r + RootSelect(binaryRoots[i], filter);
        i := i + 1;
      }
      assert binaryRoots[..i] == binaryRoots;
    }

    /** match(filter): the union of the binary roots' identifier sets. */
    method Match(filter: ContentFilter) returns (r: set<Id>)
      ensures forall id :: id in r <==> exists i :: 0 <= i < |binaryRoots| && id in RootMatch(binaryRoots[i], filter)
    {
      r := {};
      var i := 0;
      while i != |binaryRoots|
        invariant 0 <= i <= |binaryRoots|
        invariant forall id :: id in r <==> exists j :: 0 <= j < i && id in RootMatch(binaryRoots[j], filter)
      {
        r := r + RootMatch(binaryRoots[i], filter);
        i := i + 1;
      }
    }

    /** flush: every binary root, in order, is flushed; commit gives a root's state afterwards. */
    method Flush(commit: Root -> Root)
      modifies this
      ensures |binaryRoots| == |old(binaryRoots)|
      ensures forall i :: 0 <= i < |binaryRoots| ==> binaryRoots[i] == commit(old(binaryRoots[i]))
      ensures sourceRoots == old(sourceRoots) && delta == old(delta) && rules == old(rules)
      ensures forall r: RootRef :: Deref(r).Some? <==> old(Deref(r)).Some?
      ensures forall r: RootRef :: r.BinaryRoot? && Deref(r).Some? ==> Deref(r).value == commit(old(Deref(r)).value)
      ensures forall r: RootRef :: r.SourceRoot? ==> Deref(r) == old(Deref(r))
    {
      var i := 0;
      while i != |binaryRoots|
        invariant 0 <= i <= |binaryRoots| && |binaryRoots| == |old(binaryRoots)|
        invariant forall j :: 0 <= j < i ==> binaryRoots[j] == commit(old(binaryRoots[j]))
        invariant forall j :: i <= j < |binaryRoots| ==> binaryRoots[j] == old(binaryRoots[j])
        invariant sourceRoots == old(sourceRoots) && delta == old(delta) && rules == old(rules)
      {
        binaryRoots := binaryRoots[i := commit(binaryRoots[i])];
        i := i + 1;
      }
    }

    /** refresh: every binary root, in order, is refreshed; reload gives a root's state afterwards. */
    method Refresh(reload: Root -> Root)
      modifies this
      ensures |binaryRoots| == |old(binaryRoots)|
      ensures forall i :: 0 <= i < |binaryRoots| ==> binaryRoots[i] == reload(old(binaryRoots[i]))
      ensures sourceRoots == old(sourceRoots) && delta == old(delta) && rules == old(rules)
      ensures forall r: RootRef :: Deref(r).Some? <==> old(Deref(r)).Some?
      ensures forall r: RootRef :: r.BinaryRoot? && Deref(r).Some? ==> Deref(r).value == reload(old(Deref(r)).value)
      ensures forall r: RootRef :: r.SourceRoot? ==> Deref(r) == old(Deref(r))
    {
      var i := 0;
      while i != |binaryRoots|
        invariant 0 <= i <= |binaryRoots| && |binaryRoots| == |old(binaryRoots)|
        invariant forall j :: 0 <= j < i ==> binaryRoots[j] == reload(old(binaryRoots[j]))
        invariant forall j :: i <= j < |binaryRoots| ==> binaryRoots[j] == old(binaryRoots[j])
        invariant sourceRoots == old(sourceRoots) && delta == old(delta) && rules == old(rules)
      {
        binaryRoots := binaryRoots[i := reload(binaryRoots[i])];
        i := i + 1;
      }
    }

    /** changed: an empty handler. */
    method Changed(resource: Path)
      ensures unchanged(this)
    {
    }

    /** created: an empty handler. */
    method Created(resource: Path)
      ensures unchanged(this)
    {
    }

    /** removed: an empty handler. */
    method Removed(resource: Path)
      ensures unchanged(this)
    {
    }
  }

  // ---------------------------------------------------------------------
  // Content registry
  // ---------------------------------------------------------------------

  /** What reading an entry as a WyIL file gives: a module, null, or an exception. */
  datatype ReadResult = Decoded(file: WyilFile) | DecodedNull | ReadFailed

  /** The suffix the registry gives to a content type. */
  function Suffix(t: ContentType): (suffix: string)
    ensures suffix == "whiley" <==> t == WhileyType
    ensures suffix == "class" <==> t == WyilType
    ensures suffix == "dat" <==> t.OtherType?
  {
    if t == WhileyType then "whiley" else if t == WyilType then "class" else "dat"
  }

  /**
   * The association the registry makes for an entry with this suffix and
   * these contents, if any: "whiley" is Whiley source, "class" is WyIL only
   * when the contents decode to a module, and nothing else is associated.
   */
  function Classify(suffix: string, contents: seq<bv8>, read: seq<bv8> -> ReadResult): (r: Option<(ContentType, Option<WyilFile>)>)
    ensures r.Some? ==> Suffix(r.value.0) == suffix
    ensures r.Some? <==> suffix == "whiley" || (suffix == "class" && read(contents).Decoded?)
    ensures r.Some? && r.value.0 == WyilType ==> r.value.1 == Some(read(contents).file)
    ensures r.Some? && r.value.0 == WhileyType ==> r.value.1 == None
  {
    if suffix == "whiley" then Some((WhileyType, None))
    else if suffix == "class" then
      match read(contents)
      case Decoded(c) => Some((WyilType, Some(c)))
      case _ => None
    else None
  }

  /** associate: read is the WyIL decoder applied to the entry's contents. */
  method Associate(e: Entry, read: seq<bv8> -> ReadResult)
    modifies e
    ensures var c := Classify(e.suffix, e.contents, read);
      if c.Some? then e.contentType == Some(c.value.0) && e.value == c.value.1
      else e.contentType == old(e.contentType) && e.value == old(e.value)
  {
    if e.suffix == "whiley" {
      e.Associate(WhileyType, None);
    } else if e.suffix == "class" {
      // a JVM class file or a WyIL file: only a successful decode tells
      var c := read(e.contents);
      if c.Decoded? {
        e.Associate(WyilType, Some(c.file));
      }
    }
  }
}
