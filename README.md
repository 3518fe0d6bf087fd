# Wyclipse core in Dafny

A model of the core of Wyclipse, the Eclipse plug-in for the Whiley language. It covers three parts, each with proofs about it:

- **The whileypath** (`build_path.dfy`, module `BuildPath`). This is a project's build-path configuration: an optional default output folder plus an ordered list of entries. Each entry is either a build rule (source folder, include filter, optional output folder) or an external library (location, include filter). The model also covers the whileypath's XML form.
  - `BuildRule` and `WhileyPath` are classes, because the source updates their fields in place.
  - An XML document is a value (`xml.dfy`, module `Xml`).
  - `Serialise` and `Parse` are the reference functions that `ToXmlDocument` and `FromXmlDocument` are proved against.
- **The Whiley project** (`project.dfy`, module `Project`). This is the namespace the compiler resolves names against.
  - It holds binary roots: the output folder, then the libraries of the classpath.
  - It holds source roots, and one build rule per source root. Each rule maps its source root to the output root, or back to the source root itself when there is no output root.
  - It answers `exists`, `get` and `match` from the binary roots only. For `exists` and `get`, the roots are tried in order and the first match wins; `match` returns the union over all binary roots.
  - The content registry classifies an entry by its suffix.
- **The builder** (`builder.dfy`, module `Build`). It dispatches on the kind of build. An incremental build:
  1. collects the changed resources of the resource delta in pre-order;
  2. deletes their problem markers, and those of everything below them;
  3. keeps the Whiley source files among them;
  4. runs the compiler;
  5. attaches a syntax error as one problem marker to the file it names.
  - The workspace's marker store is a map from resource to markers, held by a `Workspace` object.
  - The compiler is a function from the list of file locations to an outcome.

Exceptions that end an operation are modelled as results:
- `toXmlDocument` returns `None` for the null it returns.
- `fromXmlDocument` returns `None` for the NullPointerException of a malformed document.
- `build` returns `ThrewNullPointer` where a NullPointerException escapes it.

Values that depend on code outside the core are passed in as function parameters:
- roots opened for a folder or a jar;
- the WyIL decoder;
- the flush and refresh of a root;
- the compiler.

Two defects are exposed rather than hidden:
- `WhileyPath.FromXmlDocument` follows the code as written: it reads a library's location from "srcdir".
- `Builder.IdentifyCompileableResources` also follows the code as written: it fails on a changed file without an extension.

The corrected readings (`ParseCorrected`, `CompileableCorrected`) sit beside the as-written ones, and lemmas connect the two (see Findings).

The field `rules` of `WhileyProject` is declared `final` but is never assigned in the constructor, which then calls `rules.add`. The model gives it the empty list first, which is what the declaration evidently intends.

## Model

| member | source | states |
|---|---|---|
| BuildPath.BuildRule.constructor | plugins/wyclipse.core/src/wyclipse/core/builder/WhileyPath.java:248-252 | the rule holds the given source folder, filter and (possibly null) output folder |
| BuildPath.BuildRule.SetSourceFolder | plugins/wyclipse.core/src/wyclipse/core/builder/WhileyPath.java:259-261 | only the source folder changes, to the given one |
| BuildPath.BuildRule.SetSourceIncludes | plugins/wyclipse.core/src/wyclipse/core/builder/WhileyPath.java:267-269 | only the include filter changes, to the given one |
| BuildPath.BuildRule.SetOutputFolder | plugins/wyclipse.core/src/wyclipse/core/builder/WhileyPath.java:275-277 | only the output folder changes, to the given one |
| BuildPath.WhileyPath.Empty | plugins/wyclipse.core/src/wyclipse/core/builder/WhileyPath.java:39-41 | a new whileypath has no entries and no default output folder |
| BuildPath.WhileyPath.constructor | plugins/wyclipse.core/src/wyclipse/core/builder/WhileyPath.java:43-54 | the default output folder is the given one; the entries are the given ones, in order |
| BuildPath.WhileyPath.SetDefaultOutputFolder | plugins/wyclipse.core/src/wyclipse/core/builder/WhileyPath.java:60-62 | only the default output folder changes |
| BuildPath.WhileyPath.ToXmlDocument | plugins/wyclipse.core/src/wyclipse/core/builder/WhileyPath.java:68-112 | the document written is the serialisation of the whileypath's current value, or null when some entry holds a null path or filter |
| BuildPath.SerialiseEntriesSpec | plugins/wyclipse.core/src/wyclipse/core/builder/WhileyPath.java:83-111 | writing the children fails exactly when some entry is incomplete; otherwise there is one child per entry, in entry order |
| BuildPath.SerialiseShape | plugins/wyclipse.core/src/wyclipse/core/builder/WhileyPath.java:75-104 | there is one root named "whileypath"; it has "bindir" exactly when the default output folder is non-null, with that value; each child is "buildrule" for a rule and "library" for a library |
| BuildPath.BuildRuleElementShape | plugins/wyclipse.core/src/wyclipse/core/builder/WhileyPath.java:86-96 | a buildrule element has target "wyil", srcdir and includes with the rule's values, and bindir exactly when the output folder is non-null |
| BuildPath.ParseChild | plugins/wyclipse.core/src/wyclipse/core/builder/WhileyPath.java:138-160 | exactly the children whose node name is neither "buildrule" nor "library" are skipped; such a name on a node that is not an element (no attribute map) is malformed; a buildrule is malformed exactly when srcdir or includes is missing, a library exactly when its location key or includes is missing; a parsed rule holds srcdir, includes and bindir (null when absent), a parsed library its location and includes |
| BuildPath.ParseChildrenFails | plugins/wyclipse.core/src/wyclipse/core/builder/WhileyPath.java:137-161 | the parse of the children fails exactly when some child is malformed; there is no partial result |
| BuildPath.ParseWith | plugins/wyclipse.core/src/wyclipse/core/builder/WhileyPath.java:121-133 | a parse needs a first node that is an element; the default output folder is non-null exactly when that root has "bindir", with its value |
| BuildPath.ParseChildrenAppend | plugins/wyclipse.core/src/wyclipse/core/builder/WhileyPath.java:135-161 | entries follow child order: parsing a concatenation of child lists concatenates their entries |
| BuildPath.ProcessingInstructionFails | plugins/wyclipse.core/src/wyclipse/core/builder/WhileyPath.java:139-156 | a root whose one child is a processing instruction with target "library" fails to parse, because that child has a null attribute map |
| BuildPath.ParseSkipsOtherChildren | plugins/wyclipse.core/src/wyclipse/core/builder/WhileyPath.java:139-160 | a child whose node name is neither "buildrule" nor "library" has no effect on the parse |
| BuildPath.EntryRoundTrip | plugins/wyclipse.core/src/wyclipse/core/builder/WhileyPath.java:140-151 | a complete rule element read back gives the rule that was written |
| BuildPath.RoundTripEntries | plugins/wyclipse.core/src/wyclipse/core/builder/WhileyPath.java:83-105 | complete entries written and read back give the same list, for rules alone or with the corrected library key |
| BuildPath.RoundTrip | plugins/wyclipse.core/src/wyclipse/core/builder/WhileyPath.java:68-164 | a whileypath of complete build rules survives toXmlDocument then fromXmlDocument unchanged |
| BuildPath.LibraryBreaksRoundTrip | plugins/wyclipse.core/src/wyclipse/core/builder/WhileyPath.java:152-159 | any written whileypath that holds a library fails to parse back |
| BuildPath.LibraryCounterexample | plugins/wyclipse.core/src/wyclipse/core/builder/WhileyPath.java:152-159 | a one-library whileypath is written but cannot be read back |
| BuildPath.RoundTripCorrected | plugins/wyclipse.core/src/wyclipse/core/builder/WhileyPath.java:98-104 | with the location read from "path", every complete whileypath, libraries included, round-trips |
| BuildPath.WhileyPath.FromXmlDocument | plugins/wyclipse.core/src/wyclipse/core/builder/WhileyPath.java:121-164 | None, standing for the NullPointerException that escapes on a malformed document, exactly when the parse fails; otherwise a new whileypath whose value is the parse, and whose build rule objects are all new and pairwise distinct |
| BuildPath.WhileyPath.ReadChild | plugins/wyclipse.core/src/wyclipse/core/builder/WhileyPath.java:138-160 | one child succeeds exactly when it is not malformed, and appends exactly the entry it parses; the earlier entry objects are kept, in order, and any appended build rule object is new, so distinct rule objects stay distinct; a malformed child appends nothing |
| Project.WhileyProject.constructor | src/wyclipse/WhileyProject.java:97-138 | binary roots are the output root (if any) then the classpath's libraries; source roots come from the classpath; the delta is empty; there is one rule mapping each source root, with "**" Whiley files, to the output root object (the first binary root) or, when there is none, to the source root itself, targeting WyIL |
| Project.WhileyProject.Initialise | src/wyclipse/WhileyProject.java:140-175 | appends exactly the library roots and source roots of the entries, in order, and changes nothing else |
| Project.WhileyProject.InitialiseEntry | src/wyclipse/WhileyProject.java:143-173 | one classpath entry: a library that opens adds its jar root; a source entry adds its folder root; a resolved non-JRE container recurses; other kinds add nothing |
| Project.Flatten | src/wyclipse/WhileyProject.java:161-172 | the reference reading of a classpath holds no container entry |
| Project.LibraryRootsAreOpenLibraries | src/wyclipse/WhileyProject.java:140-175 | the binary roots initialise adds are the openable libraries of the flattened classpath, in order |
| Project.SourceRootsAreOpenSources | src/wyclipse/WhileyProject.java:140-175 | the source roots initialise adds are the source entries of the flattened classpath, in order |
| Project.WhileyProject.Exists | src/wyclipse/WhileyProject.java:181-188 | true exactly when some binary root holds the identifier with that content type |
| Project.WhileyProject.Get | src/wyclipse/WhileyProject.java:190-198 | null exactly when no binary root has the entry; otherwise the entry of the first binary root that has one |
| Project.WhileyProject.GetMatching | src/wyclipse/WhileyProject.java:200-206 | the binary roots' filter results, concatenated in root order |
| Project.SelectAllAppend | src/wyclipse/WhileyProject.java:200-206 | get(filter) over two lists of roots is the concatenation of the two results |
| Project.SelectAllMembership | src/wyclipse/WhileyProject.java:200-206 | an entry is in get(filter) exactly when some binary root returns it |
| Project.WhileyProject.Match | src/wyclipse/WhileyProject.java:208-214 | an identifier is matched exactly when some binary root matches it |
| Project.WhileyProject.Flush | src/wyclipse/WhileyProject.java:220-224 | every binary root is flushed, in place, so a rule whose target is the output root sees the flushed root; source roots and the other fields do not change |
| Project.WhileyProject.Refresh | src/wyclipse/WhileyProject.java:226-230 | every binary root is refreshed, in place, so a rule whose target is the output root sees the refreshed root; source roots and the other fields do not change |
| Project.WhileyProject.Changed | src/wyclipse/WhileyProject.java:239-241 | the project is unchanged |
| Project.WhileyProject.Created | src/wyclipse/WhileyProject.java:251-253 | the project is unchanged |
| Project.WhileyProject.Removed | src/wyclipse/WhileyProject.java:263-265 | the project is unchanged |
| Project.Classify | src/wyclipse/WhileyProject.java:272-298 | an association is made exactly for "whiley", and for "class" when the contents decode to a WyIL module; the suffix of the associated type is the entry's suffix; WyIL carries the decoded module and Whiley carries none |
| Project.Associate | src/wyclipse/WhileyProject.java:272-287 | the entry gets the classified content type and value; an unclassified entry is left as it was |
| Project.Suffix | src/wyclipse/WhileyProject.java:289-297 | "whiley" exactly for Whiley source, "class" exactly for WyIL, "dat" exactly for every other content type |
| Build.NonProblemsMembers | src/wyclipse/builder/Builder.java:135 | deleting problem markers keeps exactly the markers that are not problems |
| Build.NonProblemsSpec | src/wyclipse/builder/Builder.java:135 | after deleting problem markers none is left, and deleting again changes nothing |
| Build.ClearAllSpec | src/wyclipse/builder/Builder.java:133-137 | each resource that is one of the listed resources or lies below one of them loses its problem markers and keeps the rest, in order; every other resource is untouched |
| Build.Builder.ClearMarkers | src/wyclipse/builder/Builder.java:133-137 | the marker store becomes the clearing of the listed resources |
| Build.PreOrderComplete | src/wyclipse/builder/Builder.java:110-126 | a resource is collected exactly when it is the resource of some node of the delta tree |
| Build.PreOrderAllComplete | src/wyclipse/builder/Builder.java:113-121 | a resource is collected from a list of child deltas exactly when it occurs in one of them |
| Build.Builder.IdentifyChangedResources | src/wyclipse/builder/Builder.java:110-126 | the result is the delta's non-null resources in pre-order |
| Build.Builder.Visit | src/wyclipse/builder/Builder.java:113-121 | visiting a delta appends its non-null resources in pre-order |
| Build.CompileableCorrectedSpec | src/wyclipse/builder/Builder.java:147-156 | the kept resources are exactly the FILE resources with extension "whiley", in input order |
| Build.CompileableAsWritten | src/wyclipse/builder/Builder.java:150-151 | the filter as written fails exactly when a changed FILE has no extension, and otherwise agrees with the corrected filter |
| Build.NoExtensionCounterexample | src/wyclipse/builder/Builder.java:150-151 | a changed file named "Makefile" makes the filter as written fail |
| Build.Builder.IdentifyCompileableResources | src/wyclipse/builder/Builder.java:147-156 | the result is the filter as written (None for the NullPointerException) |
| Build.Locations | src/wyclipse/builder/Builder.java:84-89 | the compiler gets one file per compileable resource, in order, namely its location |
| Build.ResourceMapSpec | src/wyclipse/builder/Builder.java:82-89 | the map knows exactly the compiled locations, and sends each to the last resource with that location |
| Build.CalculateLineNumber | src/wyclipse/builder/Builder.java:174-177 | the line number is always 1 |
| Build.TargetSpec | src/wyclipse/builder/Builder.java:91-96 | a syntax error is attached exactly when it names a compiled location, and then to the last resource with that location |
| Build.CompileEffectSpec | src/wyclipse/builder/Builder.java:91-100 | compile adds exactly one marker (line 1, the error's message) to the target and changes no other resource; success and IOException add nothing |
| Build.Builder.Compile | src/wyclipse/builder/Builder.java:81-101 | the marker store becomes the compile effect of the compiler's outcome on the compileable resources' locations |
| Build.Builder.SyntaxError | src/wyclipse/builder/Builder.java:158-165 | appends one problem marker with the line, the message, high priority and error severity to the resource |
| Build.ReportedSpec | src/wyclipse/builder/Builder.java:59-63 | the marker an incremental build reports is a problem marker on one of the changed resources |
| Build.IncrementalShape | src/wyclipse/builder/Builder.java:59-63 | after an incremental build each resource holds its cleared markers, then the reported marker if it is the target |
| Build.AtMostOneProblem | src/wyclipse/builder/Builder.java:59-63 | after an incremental build the changed resources carry at most one problem marker between them |
| Build.IncrementalIdempotent | src/wyclipse/builder/Builder.java:59-63 | repeating an incremental build leaves every resource's markers as the first run left them |
| Build.Builder.IncrementalBuild | src/wyclipse/builder/Builder.java:59-63 | the markers become the incremental effect; the build completes exactly when the compileable filter does not fail |
| Build.Dispatch | src/wyclipse/builder/Builder.java:32-49 | a full build, and an incremental or auto build with a null delta, run exactly one full build; an incremental or auto build with a delta runs exactly one incremental build on it; a clean build is a clean then a full build; an unknown kind does nothing |
| Build.Builder.Build | src/wyclipse/builder/Builder.java:32-49 | the steps it runs, recorded in order, are exactly those of `Dispatch`; an incremental or auto build with a delta has the incremental effect and returns null unless the filter fails; every other kind of build leaves the markers unchanged and returns null |
| Build.Builder.FullBuild | src/wyclipse/builder/Builder.java:51-53 | the workspace is unchanged |
| Build.Builder.CleanBuild | src/wyclipse/builder/Builder.java:55-57 | the workspace is unchanged |
| Build.Builder.constructor | src/wyclipse/builder/Builder.java:24-30 | the boot path is "lib", the separator, then "wyrt.jar", and the whiley path is that one element |

## Left out

- Aliasing of `getEntries()`: callers of that accessor receive the live list. The model's `WhileyPath` owns its entry sequence, so updates made through a returned list are not modelled.
- `IPath` and `Path.Filter` are kept as the strings their `toString` / `fromString` conversions exchange. Path normalisation and filter syntax are not modelled.
- A null element inside the entry list is not modelled.
- The XML model keeps, for a node that is not an element, only its node name. Its text, comment or processing-instruction data is not modelled. Such a node has no attributes, so fromXmlDocument fails on one whose name is "buildrule" or "library" and skips any other.
- The XML document builder and the DOM are not modelled: a document is a list of nodes.
- The `WhileyBuilder`, `Pipeline` and compiler objects are not modelled; the compiler is a function parameter. `initialiseCompiler` is not modelled beyond the constructor's two path fields.
- The roots (`IContainerRoot`, `JarFileRoot`) are listings over their entries. Opening a root, flushing it and refreshing it are function parameters; the IOException of a jar that cannot be opened becomes `None`.
- `JavaCore.getClasspathContainer` is not modelled: each container entry carries its resolution. Cyclic containers, which recurse forever in the source, cannot be expressed.
- The exception of the content decoder becomes `ReadFailed`, which, like a null module, associates nothing.
- `CoreException`: thrown by the workspace calls, it is not modelled. Neither are the visitor's ignored CoreException, printing, stack traces and the progress monitor.
- The `delta` field of `WhileyProject` is only ever set to the empty list; nothing else in the core uses it.
- Project.WhileyProject.Flush / Refresh: a root whose flush() or refresh() throws is not modelled. In the source that exception stops the loop and leaves the later roots as they were; here every root is always committed or reloaded.
- Build.Builder.Compile: a resource whose raw location is null is not modelled. Every resource has a location, while in the source `getRawLocation()` on such a resource gives a NullPointerException that escapes compile.
- Build.Builder.Compile: only `SyntaxError` and `IOException` are modelled. Any other exception thrown by the compiler is not modelled.

## Findings

| source | as written | input that shows it | evidently intended | confidence | as-written member | corrected member |
|---|---|---|---|---|---|---|
| plugins/wyclipse.core/src/wyclipse/core/builder/WhileyPath.java:155 | the library location is read from "srcdir", but line 101 writes it as "path" | a whileypath with no default output folder and one library with location "lib" and includes "**" | read the location from "path", so that every written whileypath reads back | high, not executed | BuildPath.LibraryCounterexample | BuildPath.RoundTripCorrected |
| src/wyclipse/builder/Builder.java:151 | `getFileExtension().equals("whiley")` is called on every FILE, and the extension is null for a name without '.' | one changed FILE named "Makefile" in the delta | treat a file without extension as not compileable | medium, not executed | Build.NoExtensionCounterexample | Build.CompileableCorrectedSpec |
