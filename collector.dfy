/** The script itself: its module-level state, the argument handling, the
    recursive walk that fills the dictionary, and the output document. */
module Collector {
  import opened Xml
  import opened Args
  import opened Paths
  import opened Walk
  import opened Aggregator
  import opened Serializer

  /** What `verify_args` decides: go on, quit with an exit code, or let an
      exception escape. */
  datatype Verdict = Proceed | Quit(code: int) | Raise(error: Error)

  /** What opening the output file for writing gives: success, the
      "file not found" error that is caught, or any other failure. */
  datatype OpenResult = Opened | NotFound | Refused

  /** How a run of the script ends: an explicit exit code, an escaped
      exception, or the merged document written together with the flat list
      of collected names. */
  datatype ScriptResult = Exit(code: int) | Crashed(error: Error) | Written(document: Node, collected: seq<string>)

  /** The script's global variables. */
  class Run {
    var globalXmlPath: string
    var outputFileName: string
    var listOfTests: seq<string>
    var collectAllTestCases: bool
    /** `test_cases_dict`: one dictionary, updated in place, never replaced. */
    const testCasesDict: TestCasesDict
    /** `collected_tcs`: every collected name, in collection order. */
    var collectedTcs: seq<string>

    /** Every match is appended to the flat list and added to the dictionary
        together, so the list is the names of the dictionary's additions. */
    ghost predicate Valid()
      reads this, testCasesDict
    {
      testCasesDict.Valid() && collectedTcs == NamesOf(testCasesDict.Matches)
    }

    /** The initial values of the globals. */
    constructor ()
      ensures Valid() && fresh(testCasesDict)
      ensures globalXmlPath == DEFAULT_XML_PATH && outputFileName == DEFAULT_OUTPUT_NAME
      ensures listOfTests == [] && !collectAllTestCases
      ensures collectedTcs == [] && testCasesDict.Matches == []
    {
      globalXmlPath := DEFAULT_XML_PATH;
      outputFileName := DEFAULT_OUTPUT_NAME;
      listOfTests := [];
      collectAllTestCases := false;
      testCasesDict := new TestCasesDict();
      collectedTcs := [];
    }

    /** `parse_args`: each present argument overrides its global; the third
        is either the collect-all marker or the comma-separated list. */
    method ParseArgs(argv: seq<string>)
      modifies this`globalXmlPath, this`outputFileName, this`listOfTests, this`collectAllTestCases
      ensures globalXmlPath == if |argv| > 1 then argv[1] else old(globalXmlPath)
      ensures outputFileName == if |argv| > 2 then argv[2] else old(outputFileName)
      ensures collectAllTestCases == (CollectAllArg(argv) || old(collectAllTestCases))
      ensures listOfTests == if |argv| > 3 && !CollectAllArg(argv) then Split(argv[3], ',') else old(listOfTests)
    {
      if |argv| > 1 {
        globalXmlPath := argv[1];
        if |argv| > 2 {
          outputFileName := argv[2];
          if |argv| > 3 {
            if "*" == argv[3] || "__all" == argv[3] {
              collectAllTestCases := true;
            } else {
              listOfTests := Split(argv[3], ',');
            }
          }
        }
      }
    }

    /** `verify_args`: the root descriptor must exist (101), the output must
        open for writing (102 when the failure is "not found"; any other
        failure escapes), and something must be selected (103). */
    method VerifyArgs(existing: set<string>, openOutput: OpenResult) returns (v: Verdict)
      ensures globalXmlPath !in existing ==> v == Quit(101)
      ensures globalXmlPath in existing && openOutput == NotFound ==> v == Quit(102)
      ensures globalXmlPath in existing && openOutput == Refused ==> v == Raise(OutputNotOpenable(outputFileName))
      ensures globalXmlPath in existing && openOutput == Opened ==>
        v == if !collectAllTestCases && |listOfTests| == 0 then Quit(103) else Proceed
    {
      if globalXmlPath !in existing {
        return Quit(101);
      }
      match openOutput {
        case NotFound => return Quit(102);
        case Refused => return Raise(OutputNotOpenable(outputFileName));
        case Opened =>
      }
      if !collectAllTestCases && |listOfTests| == 0 {
        return Quit(103);
      }
      return Proceed;
    }

    /** `look_for_tests`: walk from the root descriptor. */
    method LookForTests(store: Store, host: Host, fuel: nat) returns (outcome: Outcome)
      requires Valid()
      modifies this`collectedTcs, testCasesDict
      ensures Valid()
      ensures var found := LeavesInXml(store, host, globalXmlPath, fuel);
        && (found.Ok? ==> outcome == Pass && testCasesDict.Matches == old(testCasesDict.Matches) + Select(found.value, collectAllTestCases, listOfTests))
        && (found.Err? ==> outcome == Fail(found.error))
    {
      outcome := LookForTestsInXml(store, host, globalXmlPath, fuel, collectAllTestCases, listOfTests);
    }

    /** `look_for_tests_in_xml`: parse the document at `path` and visit its
        top-level children in order. */
    method LookForTestsInXml(store: Store, host: Host, path: string, fuel: nat, collectAll: bool, requested: seq<string>) returns (outcome: Outcome)
      requires Valid()
      modifies this`collectedTcs, testCasesDict
      ensures Valid()
      ensures var found := LeavesInXml(store, host, path, fuel);
        && (found.Ok? ==> outcome == Pass && testCasesDict.Matches == old(testCasesDict.Matches) + Select(found.value, collectAll, requested))
        && (found.Err? ==> outcome == Fail(found.error))
      decreases fuel, 0
    {
      if fuel == 0 {
        return Fail(RecursionLimit(path));
      }
      if path !in store {
        return Fail(Unreadable(path));
      }
      outcome := CollectNodes(store, host, path, store[path].children, fuel - 1, collectAll, requested);
    }

    /** The loop of `look_for_tests_in_xml` over the parsed document's
        top-level children. */
    method CollectNodes(store: Store, host: Host, path: string, nodes: seq<Node>, fuel: nat, collectAll: bool, requested: seq<string>) returns (outcome: Outcome)
      requires Valid()
      modifies this`collectedTcs, testCasesDict
      ensures Valid()
      ensures var found := LeavesInNodes(store, host, path, nodes, fuel);
        && (found.Ok? ==> outcome == Pass && testCasesDict.Matches == old(testCasesDict.Matches) + Select(found.value, collectAll, requested))
        && (found.Err? ==> outcome == Fail(found.error))
      decreases fuel, 3
    {
      ghost var found: seq<TestCase> := [];
      var i := 0;
      while i < |nodes|
        invariant 0 <= i <= |nodes|
        invariant Valid()
        invariant LeavesInNodes(store, host, path, nodes[..i], fuel) == Ok(found)
        invariant testCasesDict.Matches == old(testCasesDict.Matches) + Select(found, collectAll, requested)
      {
        NodesStep(store, host, path, nodes, fuel, i, found);
        ghost var more := LeavesInNode(store, host, path, nodes[i], fuel);
        var r := LookForTestsInNode(store, host, path, nodes[i], fuel, collectAll, requested);
        if r.Fail? {
          NodesErrorPersists(store, host, path, nodes, fuel, i + 1);
          return r;
        }
        SelectExtend(old(testCasesDict.Matches), found, more.value, collectAll, requested);
        found := found + more.value;
        i := i + 1;
      }
      assert nodes[..i] == nodes;
      outcome := Pass;
    }

    /** `look_for_tests_in_node`: a `test` element is searched for matching
        leaves; a `suite-files` element has each `suite-file` walked,
        resolved against this document's directory; anything else is
        skipped. */
    method LookForTestsInNode(store: Store, host: Host, path: string, node: Node, fuel: nat, collectAll: bool, requested: seq<string>) returns (outcome: Outcome)
      requires Valid()
      modifies this`collectedTcs, testCasesDict
      ensures Valid()
      ensures var found := LeavesInNode(store, host, path, node, fuel);
        && (found.Ok? ==> outcome == Pass && testCasesDict.Matches == old(testCasesDict.Matches) + Select(found.value, collectAll, requested))
        && (found.Err? ==> outcome == Fail(found.error))
      decreases fuel, 2
    {
      if node.tag == "test" {
        if "name" !in node.attrib {
          return Fail(MissingAttribute("test", "name"));
        }
        if |node.children| == 0 {
          return Fail(MissingFirstChild("test"));
        }
        outcome := CollectClasses(node.attrib["name"], node.children[0].children, collectAll, requested);
      } else if node.tag == "suite-files" {
        outcome := CollectSuiteFiles(store, host, path, node.children, fuel, collectAll, requested);
      } else {
        outcome := Pass;
      }
    }

    /** The `suite-files` branch of `look_for_tests_in_node`: each
        `suite-file` entry's document is walked in turn; other entries are
        skipped. */
    method CollectSuiteFiles(store: Store, host: Host, path: string, entries: seq<Node>, fuel: nat, collectAll: bool, requested: seq<string>) returns (outcome: Outcome)
      requires Valid()
      modifies this`collectedTcs, testCasesDict
      ensures Valid()
      ensures var found := LeavesInSuiteFiles(store, host, path, entries, fuel);
        && (found.Ok? ==> outcome == Pass && testCasesDict.Matches == old(testCasesDict.Matches) + Select(found.value, collectAll, requested))
        && (found.Err? ==> outcome == Fail(found.error))
      decreases fuel, 1
    {
      ghost var found: seq<TestCase> := [];
      var i := 0;
      while i < |entries|
        invariant 0 <= i <= |entries|
        invariant Valid()
        invariant LeavesInSuiteFiles(store, host, path, entries[..i], fuel) == Ok(found)
        invariant testCasesDict.Matches == old(testCasesDict.Matches) + Select(found, collectAll, requested)
      {
        var entry := entries[i];
        SuiteFilesStep(store, host, path, entries, fuel, i, found);
        if entry.tag == "suite-file" {
          if "path" !in entry.attrib {
            SuiteFilesErrorPersists(store, host, path, entries, fuel, i + 1);
            return Fail(MissingAttribute("suite-file", "path"));
          }
          var target := SuiteFilePath(host, path, entry.attrib["path"]);
          ghost var more := LeavesInXml(store, host, target, fuel);
          var r := LookForTestsInXml(store, host, target, fuel, collectAll, requested);
          if r.Fail? {
            SuiteFilesErrorPersists(store, host, path, entries, fuel, i + 1);
            return r;
          }
          SelectExtend(old(testCasesDict.Matches), found, more.value, collectAll, requested);
          found := found + more.value;
        }
        i := i + 1;
      }
      assert entries[..i] == entries;
      outcome := Pass;
    }

    /** The class loop of a `test` element: each `class` child gives its
        `name`, and its first child's `include` children are tested. */
    method CollectClasses(t: string, elems: seq<Node>, collectAll: bool, requested: seq<string>) returns (outcome: Outcome)
      requires Valid()
      modifies this`collectedTcs, testCasesDict
      ensures Valid()
      ensures var found := ClassesLeaves(t, elems);
        && (found.Ok? ==> outcome == Pass && testCasesDict.Matches == old(testCasesDict.Matches) + Select(found.value, collectAll, requested))
        && (found.Err? ==> outcome == Fail(found.error))
    {
      ghost var found: seq<TestCase> := [];
      var j := 0;
      while j < |elems|
        invariant 0 <= j <= |elems|
        invariant Valid()
        invariant ClassesLeaves(t, elems[..j]) == Ok(found)
        invariant testCasesDict.Matches == old(testCasesDict.Matches) + Select(found, collectAll, requested)
      {
        var e := elems[j];
        ClassesStep(t, elems, j, found);
        if e.tag == "class" {
          if "name" !in e.attrib {
            ClassesErrorPersists(t, elems, j + 1);
            return Fail(MissingAttribute("class", "name"));
          }
          if |e.children| == 0 {
            ClassesErrorPersists(t, elems, j + 1);
            return Fail(MissingFirstChild("class"));
          }
          var c := e.attrib["name"];
          ghost var more := IncludesLeaves(t, c, e.children[0].children);
          var r := CollectIncludes(t, c, e.children[0].children, collectAll, requested);
          if r.Fail? {
            ClassesErrorPersists(t, elems, j + 1);
            return r;
          }
          SelectExtend(old(testCasesDict.Matches), found, more.value, collectAll, requested);
          found := found + more.value;
        }
        j := j + 1;
      }
      assert elems[..j] == elems;
      outcome := Pass;
    }

    /** The include loop of one class: a leaf whose name the selection
        accepts is appended to the flat list and added to the dictionary;
        any other leaf changes nothing. */
    method CollectIncludes(t: string, c: string, elems: seq<Node>, collectAll: bool, requested: seq<string>) returns (outcome: Outcome)
      requires Valid()
      modifies this`collectedTcs, testCasesDict
      ensures Valid()
      ensures var found := IncludesLeaves(t, c, elems);
        && (found.Ok? ==> outcome == Pass && testCasesDict.Matches == old(testCasesDict.Matches) + Select(found.value, collectAll, requested))
        && (found.Err? ==> outcome == Fail(found.error))
    {
      ghost var found: seq<TestCase> := [];
      var k := 0;
      while k < |elems|
        invariant 0 <= k <= |elems|
        invariant Valid()
        invariant IncludesLeaves(t, c, elems[..k]) == Ok(found)
        invariant testCasesDict.Matches == old(testCasesDict.Matches) + Select(found, collectAll, requested)
      {
        var e := elems[k];
        IncludesStep(t, c, elems, k, found);
        if e.tag == "include" {
          if "name" !in e.attrib {
            IncludesErrorPersists(t, c, elems, k + 1);
            return Fail(MissingAttribute("include", "name"));
          }
          var name := e.attrib["name"];
          ghost var leaf := TestCase(t, c, name);
          SelectStep(old(testCasesDict.Matches), found, leaf, collectAll, requested);
          if Selected(name, collectAll, requested) {
            Record(t, c, name);
          }
          found := found + [leaf];
        }
        k := k + 1;
      }
      assert elems[..k] == elems;
      outcome := Pass;
    }

    /** One selected leaf: appended to the flat list and added to the
        dictionary. */
    method Record(t: string, c: string, name: string)
      requires Valid()
      modifies this`collectedTcs, testCasesDict
      ensures Valid()
      ensures collectedTcs == old(collectedTcs) + [name]
      ensures testCasesDict.Matches == old(testCasesDict.Matches) + [TestCase(t, c, name)]
    {
      ghost var matches := testCasesDict.Matches;
      collectedTcs := collectedTcs + [name];
      testCasesDict.Add(t, c, name);
      assert (matches + [TestCase(t, c, name)])[..|matches|] == matches;
    }

    /** `write_test_cases_dict_to_xml` without the text rendering: the
        `mergedSuite` root, the listeners, then the tree `create_xml_tree`
        builds. */
    method WriteTestCasesDictToXml() returns (doc: Node)
      requires Valid()
      ensures WellKeyed(testCasesDict.tests, testCasesDict.classes)
      ensures doc == MergedSuite(TestElements(testCasesDict.tests, testCasesDict.classes))
    {
      BuildRepresents(testCasesDict.Matches);
      RepresentsIsWellKeyed(testCasesDict.tests, testCasesDict.classes, testCasesDict.Matches);
      var tests := CreateXmlTree(testCasesDict);
      doc := Node("suite", map["name" := SUITE_NAME], [ListenersElement()] + tests);
    }
  }

  /** The script's main block: parse, check, walk, write. `existing` is what
      `os.path.exists` reports, `openOutput` what opening the output gives,
      `store` the parsable descriptor files, and `fuel` the deepest suite-file
      nesting the interpreter's recursion limit allows. */
  method RunScript(argv: seq<string>, existing: set<string>, openOutput: OpenResult,
                   store: Store, host: Host, fuel: nat) returns (r: ScriptResult)
    ensures XmlPathArg(argv) !in existing ==> r == Exit(101)
    ensures XmlPathArg(argv) in existing && openOutput == NotFound ==> r == Exit(102)
    ensures XmlPathArg(argv) in existing && openOutput == Refused ==> r == Crashed(OutputNotOpenable(OutputArg(argv)))
    ensures XmlPathArg(argv) in existing && openOutput == Opened ==> (r == Exit(103) <==> |argv| <= 3)
    ensures XmlPathArg(argv) in existing && openOutput == Opened && |argv| > 3 ==>
      var found := LeavesInXml(store, host, XmlPathArg(argv), fuel);
      && (found.Err? ==> r == Crashed(found.error))
      && (found.Ok? ==>
            var kept := Select(found.value, CollectAllArg(argv), TestListArg(argv));
            && r.Written?
            && r.collected == NamesOf(kept)
            && |r.collected| == |Regrouped(kept)|
            && r.document.tag == "suite" && r.document.attrib == map["name" := SUITE_NAME]
            && |r.document.children| == 1 + |TestOrder(kept)|
            && r.document.children[0] == ListenersElement()
            && WellKeyed(Build(kept).tests, Build(kept).classes)
            && r.document == MergedSuite(TestElements(Build(kept).tests, Build(kept).classes))
            && LeavesInXml(map[OutputArg(argv) := r.document], host, OutputArg(argv), 1) == Ok(Regrouped(kept)))
  {
    var run := new Run();
    run.ParseArgs(argv);
    EmptySelectionIffNoArgument(argv);
    var verdict := run.VerifyArgs(existing, openOutput);
    match verdict {
      case Quit(code) => return Exit(code);
      case Raise(e) => return Crashed(e);
      case Proceed =>
    }
    ghost var found := LeavesInXml(store, host, run.globalXmlPath, fuel);
    var outcome := run.LookForTests(store, host, fuel);
    if outcome.Fail? {
      return Crashed(outcome.error);
    }
    ghost var kept := Select(found.value, run.collectAllTestCases, run.listOfTests);
    assert [] + kept == kept;
    assert run.testCasesDict.Matches == kept;
    var doc := run.WriteTestCasesDictToXml();
    BuildRepresents(kept);
    SuiteReadsBack(map[], host, run.outputFileName, 1, run.testCasesDict.tests, run.testCasesDict.classes, kept);
    assert map[][run.outputFileName := doc] == map[run.outputFileName := doc];
    assert |doc.children| == 1 + |TestOrder(kept)|;
    r := Written(doc, run.collectedTcs);
  }
}
