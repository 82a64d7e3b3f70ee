/** The merged suite document built from the dictionary, and what the
    collector would read back from it. */
module Serializer {
  import opened Xml
  import opened Paths
  import opened Walk
  import opened Aggregator

  const SUITE_NAME := "mergedSuite"
  const LISTENER_CLASS := "com.SiemensXHQ.core.configuration.MethodAsTestListener"

  /** Every listed test has its class dictionary and every listed class its
      list, so the dictionary can be read in key order. */
  predicate WellKeyed(tests: seq<string>, classes: map<string, ClassDict>) {
    forall t :: t in tests ==> t in classes && forall c :: c in classes[t].order ==> c in classes[t].lists
  }

  lemma RepresentsIsWellKeyed(tests: seq<string>, classes: map<string, ClassDict>, cases: seq<TestCase>)
    requires Represents(tests, classes, cases)
    ensures WellKeyed(tests, classes)
  {
  }

  /** `<include name="n"/>` for each name, in order. */
  function IncludeElements(names: seq<string>): (r: seq<Node>)
    ensures |r| == |names|
    ensures forall i :: 0 <= i < |names| ==> r[i] == Node("include", map["name" := names[i]], [])
  {
    seq(|names|, i requires 0 <= i < |names| => Node("include", map["name" := names[i]], []))
  }

  /** `<class name="c"><methods>…</methods></class>` for each class key. */
  function ClassElements(order: seq<string>, lists: map<string, seq<string>>): (r: seq<Node>)
    requires forall c :: c in order ==> c in lists
    ensures |r| == |order|
    ensures forall i :: 0 <= i < |order| ==> r[i].tag == "class" && r[i].attrib == map["name" := order[i]]
    decreases |order|
  {
    if order == [] then []
    else
      var c := order[|order| - 1];
      ClassElements(order[..|order| - 1], lists)
        + [Node("class", map["name" := c], [Node("methods", map[], IncludeElements(lists[c]))])]
  }

  /** `<test name="t"><classes>…</classes></test>` for each test key. */
  function TestElements(tests: seq<string>, classes: map<string, ClassDict>): (r: seq<Node>)
    requires WellKeyed(tests, classes)
    ensures |r| == |tests|
    ensures forall i :: 0 <= i < |tests| ==> r[i].tag == "test" && r[i].attrib == map["name" := tests[i]]
    decreases |tests|
  {
    if tests == [] then []
    else
      var t := tests[|tests| - 1];
      TestElements(tests[..|tests| - 1], classes)
        + [Node("test", map["name" := t], [Node("classes", map[], ClassElements(classes[t].order, classes[t].lists))])]
  }

  /** The fixed first child: one listener with the fixed class name. */
  function ListenersElement(): Node {
    Node("listeners", map[], [Node("listener", map["class-name" := LISTENER_CLASS], [])])
  }

  /** The output root: `<suite name="mergedSuite">`, the listeners, then the
      test elements. */
  function MergedSuite(tests: seq<Node>): Node {
    Node("suite", map["name" := SUITE_NAME], [ListenersElement()] + tests)
  }

  /** `create_xml_tree`: one test element per test key, holding one class
      element per class key, holding one include per listed name, all in
      insertion order. */
  method CreateXmlTree(d: TestCasesDict) returns (elems: seq<Node>)
    requires WellKeyed(d.tests, d.classes)
    ensures elems == TestElements(d.tests, d.classes)
  {
    var tests, classes := d.tests, d.classes;
    elems := [];
    var i := 0;
    while i < |tests|
      invariant 0 <= i <= |tests|
      invariant elems == TestElements(tests[..i], classes)
    {
      var testKey := tests[i];
      var classElems := ClassesOf(classes[testKey]);
      elems := elems + [Node("test", map["name" := testKey], [Node("classes", map[], classElems)])];
      assert tests[..i + 1][..i] == tests[..i];
      i := i + 1;
    }
    assert tests[..i] == tests;
  }

  /** The class elements of one test, as the middle loop of `create_xml_tree`
      builds them. */
  method ClassesOf(testDict: ClassDict) returns (classElems: seq<Node>)
    requires forall c :: c in testDict.order ==> c in testDict.lists
    ensures classElems == ClassElements(testDict.order, testDict.lists)
  {
    classElems := [];
    var j := 0;
    while j < |testDict.order|
      invariant 0 <= j <= |testDict.order|
      invariant classElems == ClassElements(testDict.order[..j], testDict.lists)
    {
      var classKey := testDict.order[j];
      var includeElems := MethodsOf(testDict.lists[classKey]);
      classElems := classElems + [Node("class", map["name" := classKey], [Node("methods", map[], includeElems)])];
      assert testDict.order[..j + 1][..j] == testDict.order[..j];
      j := j + 1;
    }
    assert testDict.order[..j] == testDict.order;
  }

  /** The include elements of one class, as the inner loop of
      `create_xml_tree` builds them. */
  method MethodsOf(names: seq<string>) returns (includeElems: seq<Node>)
    ensures includeElems == IncludeElements(names)
  {
    includeElems := [];
    var k := 0;
    while k < |names|
      invariant 0 <= k <= |names|
      invariant includeElems == IncludeElements(names[..k])
    {
      includeElems := includeElems + [Node("include", map["name" := names[k]], [])];
      k := k + 1;
    }
    assert names[..k] == names;
  }

  // Reading the output back: the merged suite has the shape the collector
  // reads (test, first child, class, first child, include), so collecting
  // from it gives back the additions, grouped.

  lemma {:induction false} IncludesReadBack(t: string, c: string, names: seq<string>)
    ensures IncludesLeaves(t, c, IncludeElements(names)) == Ok(Tagged(t, c, names))
    decreases |names|
  {
    if names != [] {
      var init := names[..|names| - 1];
      IncludesReadBack(t, c, init);
      assert IncludeElements(names)[..|names| - 1] == IncludeElements(init);
      assert Tagged(t, c, names) == Tagged(t, c, init) + [TestCase(t, c, names[|names| - 1])];
    }
  }

  lemma {:induction false} ClassesReadBack(t: string, lists: map<string, seq<string>>, cases: seq<TestCase>, cs: seq<string>)
    requires forall c :: c in cs ==> c in lists && lists[c] == Names(cases, t, c)
    ensures ClassesLeaves(t, ClassElements(cs, lists)) == Ok(ClassBlocks(cases, t, cs))
    decreases |cs|
  {
    if cs != [] {
      var init := cs[..|cs| - 1];
      var c := cs[|cs| - 1];
      ClassesReadBack(t, lists, cases, init);
      IncludesReadBack(t, c, lists[c]);
      assert ClassElements(cs, lists)[..|cs| - 1] == ClassElements(init, lists);
    }
  }

  lemma {:induction false} TestsReadBack(store: Store, host: Host, path: string, fuel: nat,
                                         tests: seq<string>, classes: map<string, ClassDict>, cases: seq<TestCase>)
    requires WellKeyed(tests, classes)
    requires forall t :: t in tests ==>
      && classes[t].order == ClassOrder(cases, t)
      && forall c :: c in classes[t].order ==> classes[t].lists[c] == Names(cases, t, c)
    ensures LeavesInNodes(store, host, path, TestElements(tests, classes), fuel) == Ok(TestBlocks(cases, tests))
    decreases |tests|
  {
    if tests != [] {
      var init := tests[..|tests| - 1];
      var t := tests[|tests| - 1];
      TestsReadBack(store, host, path, fuel, init, classes, cases);
      ClassesReadBack(t, classes[t].lists, cases, classes[t].order);
      assert TestElements(tests, classes)[..|tests| - 1] == TestElements(init, classes);
    }
  }

  /** The merged suite, stored at any path and collected with any depth
      bound of at least one, yields exactly the dictionary's additions
      grouped by test and then class in insertion order; there are as many
      include elements as additions. */
  lemma SuiteReadsBack(store: Store, host: Host, path: string, fuel: nat,
                       tests: seq<string>, classes: map<string, ClassDict>, cases: seq<TestCase>)
    requires fuel >= 1
    requires Represents(tests, classes, cases)
    ensures WellKeyed(tests, classes)
    ensures LeavesInXml(store[path := MergedSuite(TestElements(tests, classes))], host, path, fuel) == Ok(Regrouped(cases))
    ensures |Regrouped(cases)| == |cases|
  {
    var store' := store[path := MergedSuite(TestElements(tests, classes))];
    TestsReadBack(store', host, path, fuel - 1, tests, classes, cases);
    SkippedNodeFirst(store', host, path, ListenersElement(), TestElements(tests, classes), fuel - 1);
    RegroupedIsPermutation(cases);
  }
}
