/**
 * The whileypath: the build-path configuration of a Whiley project, made of an
 * optional default output folder and an ordered list of entries, each a build
 * rule (source folder, include filter, optional output folder) or an external
 * library (location, include filter). It is written to and read from an XML
 * document whose root is a "whileypath" element.
 *
 * Paths (IPath) and filters (Path.Filter) are kept as the strings that their
 * toString / fromString conversions exchange; a null path or filter is None.
 */
module BuildPath {
  import opened Wrappers
  import opened Xml

  type Path = string
  type Filter = string

  /** A build rule: its three fields are changed in place by its setters. */
  class BuildRule {
    var sourceFolder: Option<Path>
    var sourceIncludes: Option<Filter>
    var outputFolder: Option<Path>

    constructor (sourceFolder: Option<Path>, sourceIncludes: Option<Filter>, outputFolder: Option<Path>)
      ensures this.sourceFolder == sourceFolder
      ensures this.sourceIncludes == sourceIncludes
      ensures this.outputFolder == outputFolder
    {
      this.sourceFolder := sourceFolder;
      this.sourceIncludes := sourceIncludes;
      this.outputFolder := outputFolder;
    }

    method SetSourceFolder(sourceFolder: Option<Path>)
      modifies this`sourceFolder
      ensures this.sourceFolder == sourceFolder
    {
      this.sourceFolder := sourceFolder;
    }

    method SetSourceIncludes(sourceIncludes: Option<Filter>)
      modifies this`sourceIncludes
      ensures this.sourceIncludes == sourceIncludes
    {
      this.sourceIncludes := sourceIncludes;
    }

    method SetOutputFolder(outputFolder: Option<Path>)
      modifies this`outputFolder
      ensures this.outputFolder == outputFolder
    {
      this.outputFolder := outputFolder;
    }
  }

  /** An external library: it has no setters, so it is a value. */
  datatype ExternalLibrary = ExternalLibrary(location: Option<Path>, includes: Option<Filter>)

  /** An entry of the whileypath, as held in its entry list. */
  datatype Entry = Rule(rule: BuildRule) | Library(library: ExternalLibrary)

  /** What an entry holds at a given moment: the value a reader of it sees. */
  datatype EntryValue =
    | RuleValue(sourceFolder: Option<Path>, sourceIncludes: Option<Filter>, outputFolder: Option<Path>)
    | LibraryValue(library: ExternalLibrary)

  /** What a whileypath holds at a given moment. */
  datatype PathValue = PathValue(defaultOutputFolder: Option<Path>, entries: seq<EntryValue>)

  function RuleObjects(es: seq<Entry>): set<BuildRule>
  {
    set e | e in es && e.Rule? :: e.rule
  }

  /** No build rule object is held by two positions of the list. */
  predicate DistinctRules(es: seq<Entry>)
  {
    forall i, j :: 0 <= i < j < |es| && es[i].Rule? && es[j].Rule? ==> es[i].rule != es[j].rule
  }

  function ValueOf(e: Entry): EntryValue
    reads if e.Rule? then {e.rule} else {}
  {
    match e
    case Rule(r) => RuleValue(r.sourceFolder, r.sourceIncludes, r.outputFolder)
    case Library(l) => LibraryValue(l)
  }

  function Values(es: seq<Entry>): (vs: seq<EntryValue>)
    reads RuleObjects(es)
    ensures |vs| == |es|
    ensures forall i :: 0 <= i < |es| ==> vs[i] == ValueOf(es[i])
  {
    if es == [] then [] else Values(es[..|es| - 1]) + [ValueOf(es[|es| - 1])]
  }

  // ---------------------------------------------------------------------
  // Serialisation (toXmlDocument)
  // ---------------------------------------------------------------------

  /** The attributes of the root element: "bindir" only for a non-null default output folder. */
  function RootAttributes(defaultOutputFolder: Option<Path>): map<string, string>
  {
    if defaultOutputFolder.Some? then map["bindir" := defaultOutputFolder.value] else map[]
  }

  /**
   * The child element written for one entry, or None where the entry holds a
   * null path or filter: its toString() throws, and the exception handler of
   * toXmlDocument turns the whole document into null.
   */
  function EntryElement(v: EntryValue): Option<Node>
  {
    match v
    case RuleValue(sf, inc, out) =>
      if sf.None? || inc.None? then None
      else
        var attributes := map["target" := "wyil", "srcdir" := sf.value, "includes" := inc.value];
        Some(Element("buildrule",
                     if out.Some? then attributes["bindir" := out.value] else attributes,
                     []))
    case LibraryValue(ExternalLibrary(loc, inc)) =>
      if loc.None? || inc.None? then None
      else Some(Element("library", map["path" := loc.value, "includes" := inc.value], []))
  }

  /** A rule or library with every path and filter present. */
  predicate Complete(v: EntryValue)
  {
    match v
    case RuleValue(sf, inc, _) => sf.Some? && inc.Some?
    case LibraryValue(l) => l.location.Some? && l.includes.Some?
  }

  function SerialiseEntries(vs: seq<EntryValue>): Option<seq<Node>>
  {
    if vs == [] then Some([])
    else
      var last := vs[|vs| - 1];
      match (SerialiseEntries(vs[..|vs| - 1]), EntryElement(last))
      case (Some(cs), Some(c)) => Some(cs + [c])
      case _ => None
  }

  /** toXmlDocument on a whileypath whose value is p. */
  function Serialise(p: PathValue): Option<Document>
  {
    match SerialiseEntries(p.entries)
    case None => None
    case Some(cs) => Some(Document([Element("whileypath", RootAttributes(p.defaultOutputFolder), cs)]))
  }

  /** Writing fails exactly on a null path or filter, and otherwise yields one child per entry, in order. */
  lemma {:induction false} SerialiseEntriesSpec(vs: seq<EntryValue>)
    ensures SerialiseEntries(vs).Some? <==> forall i :: 0 <= i < |vs| ==> Complete(vs[i])
    ensures SerialiseEntries(vs).Some? ==> |SerialiseEntries(vs).value| == |vs|
    ensures SerialiseEntries(vs).Some? ==>
      forall i :: 0 <= i < |vs| ==> Some(SerialiseEntries(vs).value[i]) == EntryElement(vs[i])
  {
    if vs != [] {
      var init := vs[..|vs| - 1];
      SerialiseEntriesSpec(init);
      assert forall i :: 0 <= i < |init| ==> init[i] == vs[i];
      if !Complete(vs[|vs| - 1]) {
        assert SerialiseEntries(vs).None?;
      }
    }
  }

  /**
   * The document written for p holds one "whileypath" root element, with a
   * "bindir" attribute exactly when the default output folder is non-null,
   * and one child per entry in entry order: a "buildrule" element for a rule,
   * a "library" element for a library. It is null exactly when some entry
   * holds a null path or filter.
   */
  lemma SerialiseShape(p: PathValue)
    ensures Serialise(p).Some? <==> forall i :: 0 <= i < |p.entries| ==> Complete(p.entries[i])
    ensures Serialise(p).Some? ==>
      var root := Serialise(p).value.nodes[0];
      && |Serialise(p).value.nodes| == 1
      && root.Element?
      && root.tag == "whileypath"
      && ("bindir" in root.attributes <==> p.defaultOutputFolder.Some?)
      && (p.defaultOutputFolder.Some? ==> root.attributes["bindir"] == p.defaultOutputFolder.value)
      && |root.children| == |p.entries|
      && (forall i :: 0 <= i < |p.entries| ==> Some(root.children[i]) == EntryElement(p.entries[i]))
      && (forall i :: 0 <= i < |p.entries| ==>
            root.children[i].tag == (if p.entries[i].RuleValue? then "buildrule" else "library"))
  {
    SerialiseEntriesSpec(p.entries);
  }

  lemma BuildRuleElementShape(v: EntryValue)
    requires v.RuleValue? && Complete(v)
    ensures EntryElement(v).Some?
    ensures var n := EntryElement(v).value;
      && n.tag == "buildrule"
      && n.attributes["target"] == "wyil"
      && n.attributes["srcdir"] == v.sourceFolder.value
      && n.attributes["includes"] == v.sourceIncludes.value
      && ("bindir" in n.attributes <==> v.outputFolder.Some?)
      && (v.outputFolder.Some? ==> n.attributes["bindir"] == v.outputFolder.value)
  {
  }

  // ---------------------------------------------------------------------
  // Parsing (fromXmlDocument)
  // ---------------------------------------------------------------------

  /** What parsing makes of one child node of the root. */
  datatype ChildResult = Skipped | Parsed(entry: EntryValue) | Malformed

  function ParsedEntries(r: ChildResult): seq<EntryValue>
  {
    if r.Parsed? then [r.entry] else []
  }

  /**
   * One child of the root. A "buildrule" element needs "srcdir" and
   * "includes", a "library" element needs libraryKey and "includes": a
   * missing one yields a null node that is dereferenced, so the parse fails.
   * A node that is not an element but bears one of those names has a null
   * attribute map, and the parse fails as well. Any other child is skipped.
   */
  function ParseChild(n: Node, libraryKey: string): (r: ChildResult)
    ensures r.Parsed? ==> n.Element? && (n.tag == "buildrule" || n.tag == "library")
    ensures r.Skipped? <==> NodeName(n) != "buildrule" && NodeName(n) != "library"
    ensures n.Other? ==> (r.Malformed? <==> n.name == "buildrule" || n.name == "library")
    ensures n.Element? && n.tag == "buildrule" ==>
      (r.Malformed? <==> "srcdir" !in n.attributes || "includes" !in n.attributes)
    ensures n.Element? && n.tag == "library" ==>
      (r.Malformed? <==> libraryKey !in n.attributes || "includes" !in n.attributes)
    ensures r.Parsed? && n.tag == "buildrule" ==>
      r.entry == RuleValue(Some(n.attributes["srcdir"]), Some(n.attributes["includes"]),
                           if "bindir" in n.attributes then Some(n.attributes["bindir"]) else None)
    ensures r.Parsed? && n.tag == "library" ==>
      r.entry == LibraryValue(ExternalLibrary(Some(n.attributes[libraryKey]), Some(n.attributes["includes"])))
  {
    match n
    case Other(name) => if name == "buildrule" || name == "library" then Malformed else Skipped
    case Element(tag, attributes, _) =>
      if tag == "buildrule" then
        if "srcdir" in attributes && "includes" in attributes then
          Parsed(RuleValue(Some(attributes["srcdir"]), Some(attributes["includes"]),
                           if "bindir" in attributes then Some(attributes["bindir"]) else None))
        else Malformed
      else if tag == "library" then
        if libraryKey in attributes && "includes" in attributes then
          Parsed(LibraryValue(ExternalLibrary(Some(attributes[libraryKey]), Some(attributes["includes"]))))
        else Malformed
      else Skipped
  }

  function ParseChildren(cs: seq<Node>, libraryKey: string): Option<seq<EntryValue>>
  {
    if cs == [] then Some([])
    else
      match (ParseChildren(cs[..|cs| - 1], libraryKey), ParseChild(cs[|cs| - 1], libraryKey))
      case (None, _) => None
      case (_, Malformed) => None
      case (Some(es), Skipped) => Some(es)
      case (Some(es), Parsed(e)) => Some(es + [e])
  }

  /** Parsing the children fails exactly when one of them is malformed. */
  lemma {:induction false} ParseChildrenFails(cs: seq<Node>, key: string)
    ensures ParseChildren(cs, key).None? <==> exists i :: 0 <= i < |cs| && ParseChild(cs[i], key).Malformed?
  {
    if cs != [] {
      var init := cs[..|cs| - 1];
      ParseChildrenFails(init, key);
      assert forall i :: 0 <= i < |init| ==> init[i] == cs[i];
      if ParseChild(cs[|cs| - 1], key).Malformed? {
        assert ParseChildren(cs, key).None?;
      }
    }
  }

  /**
   * fromXmlDocument, reading the location of a library from libraryKey. The
   * first node of the document is taken as the root (its name is not
   * checked); an empty document or a root that is not an element has a null
   * first child or attribute map, and the parse fails.
   */
  function ParseWith(doc: Document, libraryKey: string): (r: Option<PathValue>)
    ensures r.Some? ==> |doc.nodes| > 0 && doc.nodes[0].Element?
    ensures r.Some? ==>
      (r.value.defaultOutputFolder.Some? <==> "bindir" in doc.nodes[0].attributes)
    ensures r.Some? && r.value.defaultOutputFolder.Some? ==>
      r.value.defaultOutputFolder.value == doc.nodes[0].attributes["bindir"]
  {
    if |doc.nodes| == 0 || doc.nodes[0].Other? then None
    else
      var root := doc.nodes[0];
      match ParseChildren(root.children, libraryKey)
      case None => None
      case Some(es) =>
        Some(PathValue(if "bindir" in root.attributes then Some(root.attributes["bindir"]) else None, es))
  }

  /** A processing instruction whose target is "library" has no attributes, so the parse fails. */
  lemma ProcessingInstructionFails()
    ensures Parse(Document([Element("whileypath", map[], [Other("library")])])).None?
  {
  }

  /** fromXmlDocument as written: a library's location is read from "srcdir". */
  function Parse(doc: Document): Option<PathValue>
  {
    ParseWith(doc, "srcdir")
  }

  /** fromXmlDocument reading a library's location from "path", where toXmlDocument writes it. */
  function ParseCorrected(doc: Document): Option<PathValue>
  {
    ParseWith(doc, "path")
  }

  /** The entries of two child lists together, when both parse. */
  function Join(x: Option<seq<EntryValue>>, y: Option<seq<EntryValue>>): Option<seq<EntryValue>>
  {
    if x.Some? && y.Some? then Some(x.value + y.value) else None
  }

  /** Entry order follows child order: parsing a concatenation concatenates the entries. */
  lemma {:induction false} ParseChildrenAppend(a: seq<Node>, b: seq<Node>, key: string)
    ensures ParseChildren(a + b, key) == Join(ParseChildren(a, key), ParseChildren(b, key))
    decreases |b|
  {
    if b == [] {
      assert a + b == a;
      if ParseChildren(a, key).Some? {
        assert ParseChildren(a, key).value + [] == ParseChildren(a, key).value;
      }
    } else {
      var b' := b[..|b| - 1];
      var n := b[|b| - 1];
      assert (a + b)[..|a + b| - 1] == a + b';
      assert (a + b)[|a + b| - 1] == n;
      ParseChildrenAppend(a, b', key);
      var pa, pb' := ParseChildren(a, key), ParseChildren(b', key);
      match ParseChild(n, key)
      case Skipped =>
      case Malformed =>
      case Parsed(e) =>
        if pa.Some? && pb'.Some? {
          assert pa.value + (pb'.value + [e]) == (pa.value + pb'.value) + [e];
        }
    }
  }

  /** A child that is neither "buildrule" nor "library" changes nothing. */
  lemma ParseSkipsOtherChildren(a: seq<Node>, n: Node, b: seq<Node>, key: string)
    requires NodeName(n) != "buildrule" && NodeName(n) != "library"
    ensures ParseChildren(a + [n] + b, key) == ParseChildren(a + b, key)
  {
    ParseChildrenAppend(a + [n], b, key);
    ParseChildrenAppend(a, b, key);
    assert (a + [n])[..|a + [n]| - 1] == a;
  }

  // ---------------------------------------------------------------------
  // Round trip
  // ---------------------------------------------------------------------

  /** Every entry is a build rule with its source folder and filter present. */
  predicate OnlyCompleteRules(p: PathValue)
  {
    forall i :: 0 <= i < |p.entries| ==> p.entries[i].RuleValue? && Complete(p.entries[i])
  }

  /** One element read back gives the entry that was written. */
  lemma EntryRoundTrip(v: EntryValue, key: string)
    requires Complete(v)
    requires key == "path" || v.RuleValue?
    ensures EntryElement(v).Some?
    ensures ParseChild(EntryElement(v).value, key) == Parsed(v)
  {
    match v
    case RuleValue(sf, inc, out) =>
      var n := EntryElement(v).value;
      assert "srcdir" in n.attributes && n.attributes["srcdir"] == sf.value;
      assert "includes" in n.attributes && n.attributes["includes"] == inc.value;
      assert "bindir" in n.attributes <==> out.Some?;
    case LibraryValue(l) =>
  }

  lemma ParseChildrenSnoc(cs: seq<Node>, n: Node, key: string)
    ensures ParseChildren(cs + [n], key) ==
      if ParseChildren(cs, key).None? || ParseChild(n, key).Malformed? then None
      else Some(ParseChildren(cs, key).value + ParsedEntries(ParseChild(n, key)))
  {
    assert (cs + [n])[..|cs|] == cs;
    if ParseChildren(cs, key).Some? && ParseChild(n, key).Skipped? {
      assert ParseChildren(cs, key).value + [] == ParseChildren(cs, key).value;
    }
  }

  lemma {:induction false} RoundTripEntries(vs: seq<EntryValue>, key: string)
    requires forall i :: 0 <= i < |vs| ==> Complete(vs[i])
    requires key == "path" || forall i :: 0 <= i < |vs| ==> vs[i].RuleValue?
    ensures SerialiseEntries(vs).Some?
    ensures ParseChildren(SerialiseEntries(vs).value, key) == Some(vs)
  {
    if vs != [] {
      var init := vs[..|vs| - 1];
      var last := vs[|vs| - 1];
      assert forall i :: 0 <= i < |init| ==> init[i] == vs[i];
      assert init + [last] == vs;
      RoundTripEntries(init, key);
      EntryRoundTrip(last, key);
      SerialiseEntriesSnoc(init, last);
      ParseChildrenSnoc(SerialiseEntries(init).value, EntryElement(last).value, key);
    }
  }

  /**
   * A whileypath made only of build rules survives being written and read
   * back: same default output folder, same rules in the same order.
   */
  lemma RoundTrip(p: PathValue)
    requires OnlyCompleteRules(p)
    ensures Serialise(p).Some?
    ensures Parse(Serialise(p).value) == Some(p)
  {
    RoundTripEntries(p.entries, "srcdir");
  }

  /**
   * A whileypath holding a library does not survive: the library element
   * carries "path", the parser asks for "srcdir", and the whole parse fails.
   */
  lemma LibraryBreaksRoundTrip(p: PathValue, k: nat)
    requires k < |p.entries| && p.entries[k].LibraryValue?
    requires Serialise(p).Some?
    ensures Parse(Serialise(p).value).None?
  {
    SerialiseShape(p);
    var children := Serialise(p).value.nodes[0].children;
    assert Some(children[k]) == EntryElement(p.entries[k]);
    assert ParseChild(children[k], "srcdir").Malformed?;
    ParseChildrenFails(children, "srcdir");
  }

  /** The smallest document that shows the library defect. */
  lemma LibraryCounterexample()
    ensures var p := PathValue(None, [LibraryValue(ExternalLibrary(Some("lib"), Some("**")))]);
      Serialise(p).Some? && Parse(Serialise(p).value).None?
  {
    var p := PathValue(None, [LibraryValue(ExternalLibrary(Some("lib"), Some("**")))]);
    LibraryBreaksRoundTrip(p, 0);
  }

  /** Reading the library location from "path" makes every complete whileypath round-trip. */
  lemma RoundTripCorrected(p: PathValue)
    requires forall i :: 0 <= i < |p.entries| ==> Complete(p.entries[i])
    ensures Serialise(p).Some?
    ensures ParseCorrected(Serialise(p).value) == Some(p)
  {
    RoundTripEntries(p.entries, "path");
  }

  // ---------------------------------------------------------------------
  // The whileypath object
  // ---------------------------------------------------------------------

  class WhileyPath {
    var entries: seq<Entry>
    var defaultOutputFolder: Option<Path>

    function Value(): PathValue
      reads this, RuleObjects(entries)
    {
      PathValue(defaultOutputFolder, Values(entries))
    }

    constructor Empty()
      ensures entries == [] && defaultOutputFolder == None
    {
      entries := [];
      defaultOutputFolder := None;
    }

    /** Both the varargs and the collection constructor: the entries are copied in order. */
    constructor (defaultOutputFolder: Option<Path>, entries: seq<Entry>)
      ensures this.defaultOutputFolder == defaultOutputFolder
      ensures this.entries == entries
    {
      this.defaultOutputFolder := defaultOutputFolder;
      this.entries := entries;
    }

    method SetDefaultOutputFolder(defaultOutputFolder: Option<Path>)
      modifies this`defaultOutputFolder
      ensures this.defaultOutputFolder == defaultOutputFolder
    {
      this.defaultOutputFolder := defaultOutputFolder;
    }

    /** toXmlDocument: None stands for the null returned when an exception is caught. */
    method ToXmlDocument() returns (doc: Option<Document>)
      ensures doc == Serialise(Value())
    {
      ghost var p := Value();
      ghost var vs := p.entries;
      var children: seq<Node> := [];
      var i := 0;
      while i < |entries|
        invariant 0 <= i <= |entries|
        invariant SerialiseEntries(vs[..i]) == Some(children)
      {
        var e := entries[i];
        assert vs[..i + 1] == vs[..i] + [vs[i]];
        SerialiseEntriesSnoc(vs[..i], vs[i]);
        var child: Node;
        match e {
          case Rule(action) =>
            if action.sourceFolder.None? || action.sourceIncludes.None? {
              SerialiseEntriesFails(vs, i);
              assert Serialise(p) == None;
              assert Value() == p;
              return None;
            }
            var attributes := map["target" := "wyil", "srcdir" := action.sourceFolder.value,
                                  "includes" := action.sourceIncludes.value];
            if action.outputFolder.Some? {
              attributes := attributes["bindir" := action.outputFolder.value];
            }
            child := Element("buildrule", attributes, []);
          case Library(el) =>
            if el.location.None? || el.includes.None? {
              SerialiseEntriesFails(vs, i);
              assert Serialise(p) == None;
              assert Value() == p;
              return None;
            }
            child := Element("library", map["path" := el.location.value, "includes" := el.includes.value], []);
        }
        assert EntryElement(vs[i]) == Some(child);
        children := children + [child];
        i := i + 1;
      }
      assert vs[..i] == vs;
      var attributes: map<string, string> := map[];
      if defaultOutputFolder.Some? {
        attributes := attributes["bindir" := defaultOutputFolder.value];
      }
      assert attributes == RootAttributes(p.defaultOutputFolder);
      doc := Some(Document([Element("whileypath", attributes, children)]));
      assert SerialiseEntries(p.entries) == Some(children);
      assert doc == Serialise(p);
      assert Value() == p;
    }

    /** fromXmlDocument: None stands for the NullPointerException of a malformed document. */
    static method FromXmlDocument(xmldoc: Document) returns (r: Option<WhileyPath>)
      ensures r.None? <==> Parse(xmldoc).None?
      ensures r.Some? ==> fresh(r.value) && r.value.Value() == Parse(xmldoc).value
      ensures r.Some? ==> forall o :: o in RuleObjects(r.value.entries) ==> fresh(o)
      ensures r.Some? ==> forall i :: 0 <= i < |r.value.entries| && r.value.entries[i].Rule? ==>
        fresh(r.value.entries[i].rule)
      ensures r.Some? ==> DistinctRules(r.value.entries)
    {
      var whileypath := new WhileyPath.Empty();
      if |xmldoc.nodes| == 0 || xmldoc.nodes[0].Other? {
        return None;
      }
      var root := xmldoc.nodes[0];
      if "bindir" in root.attributes {
        whileypath.SetDefaultOutputFolder(Some(root.attributes["bindir"]));
      }
      var children := root.children;
      var i := 0;
      while i != |children|
        invariant 0 <= i <= |children|
        invariant whileypath.defaultOutputFolder ==
          (if "bindir" in root.attributes then Some(root.attributes["bindir"]) else None)
        invariant ParseChildren(children[..i], "srcdir") == Some(Values(whileypath.entries))
        invariant fresh(whileypath) && forall o :: o in RuleObjects(whileypath.entries) ==> fresh(o)
        invariant DistinctRules(whileypath.entries)
      {
        assert children[..i + 1] == children[..i] + [children[i]];
        ParseChildrenSnoc(children[..i], children[i], "srcdir");
        ghost var before := Values(whileypath.entries);
        var ok := whileypath.ReadChild(children[i]);
        if !ok {
          ParseChildrenFails(children, "srcdir");
          return None;
        }
        assert Values(whileypath.entries) == before + ParsedEntries(ParseChild(children[i], "srcdir"));
        i := i + 1;
      }
      assert children[..i] == children;
      forall k | 0 <= k < |whileypath.entries| && whileypath.entries[k].Rule?
        ensures fresh(whileypath.entries[k].rule)
      {
        assert whileypath.entries[k].rule in RuleObjects(whileypath.entries);
      }
      r := Some(whileypath);
    }
    /**
     * One turn of the loop of fromXmlDocument: a "buildrule" or "library"
     * child is appended to the entry list, any other child is skipped, and a
     * child missing a required attribute makes the parse fail.
     */
    method ReadChild(child: Node) returns (ok: bool)
      modifies this`entries
      ensures ok <==> !ParseChild(child, "srcdir").Malformed?
      ensures !ok ==> entries == old(entries)
      ensures ok ==> Values(entries) == old(Values(entries)) + ParsedEntries(ParseChild(child, "srcdir"))
      ensures ok ==> |entries| == |old(entries)| + |ParsedEntries(ParseChild(child, "srcdir"))|
      ensures entries[..|old(entries)|] == old(entries)
      ensures forall o :: o in RuleObjects(entries) ==> o in RuleObjects(old(entries)) || fresh(o)
      ensures DistinctRules(old(entries)) ==> DistinctRules(entries)
    {
      ok := true;
      var childName := NodeName(child);
      if childName == "buildrule" {
        // a node other than an element has a null attribute map
        if child.Other? || "srcdir" !in child.attributes || "includes" !in child.attributes {
          return false;
        }
        var attributes := child.attributes;
        var outputFolder := if "bindir" in attributes then Some(attributes["bindir"]) else None;
        var rule := new BuildRule(Some(attributes["srcdir"]), Some(attributes["includes"]), outputFolder);
        Append(Rule(rule));
      } else if childName == "library" {
        if child.Other? || "srcdir" !in child.attributes || "includes" !in child.attributes {
          return false;
        }
        var attributes := child.attributes;
        var library := Library(ExternalLibrary(Some(attributes["srcdir"]), Some(attributes["includes"])));
        Append(library);
      }
    }

    /** entries.add(e) */
    method Append(e: Entry)
      modifies this`entries
      ensures entries == old(entries) + [e]
      ensures Values(entries) == old(Values(entries)) + [ValueOf(e)]
      ensures RuleObjects(entries) == RuleObjects(old(entries)) + RuleObjects([e])
    {
      AppendValue(entries, e);
      entries := entries + [e];
    }
  }


  lemma SerialiseEntriesFails(vs: seq<EntryValue>, i: nat)
    requires i < |vs| && EntryElement(vs[i]).None?
    ensures SerialiseEntries(vs).None?
  {
    SerialiseEntriesSpec(vs);
  }

  lemma SerialiseEntriesSnoc(vs: seq<EntryValue>, v: EntryValue)
    ensures SerialiseEntries(vs + [v]) ==
      if SerialiseEntries(vs).Some? && EntryElement(v).Some?
      then Some(SerialiseEntries(vs).value + [EntryElement(v).value])
      else None
  {
    assert (vs + [v])[..|vs|] == vs;
  }

  lemma AppendValue(es: seq<Entry>, e: Entry)
    ensures Values(es + [e]) == Values(es) + [ValueOf(e)]
  {
    assert (es + [e])[..|es|] == es;
  }
}
