/** What the collector finds: every `include` leaf of a descriptor tree, in
    depth-first document order, or the first error that stops the walk.
    The functions here walk a sequence from its end, so that the value for a
    prefix one longer is the value for the prefix plus one step, exactly as
    the collector's loops advance. */
module Walk {
  import opened Xml
  import opened Args
  import opened Paths

  /** The leaves under one class: each child tagged `include` gives its
      `name`; other tags are skipped. */
  function IncludesLeaves(t: string, c: string, elems: seq<Node>): (r: Result<seq<TestCase>>)
    ensures r.Ok? ==> |r.value| <= |elems|
    ensures r.Ok? ==> forall tc :: tc in r.value ==> tc.test == t && tc.cls == c
    decreases |elems|
  {
    if elems == [] then Ok([])
    else
      var prior := IncludesLeaves(t, c, elems[..|elems| - 1]);
      var e := elems[|elems| - 1];
      if prior.Err? || e.tag != "include" then prior
      else if "name" !in e.attrib then Err(MissingAttribute("include", "name"))
      else Ok(prior.value + [TestCase(t, c, e.attrib["name"])])
  }

  /** The leaves under one test's class container: for each child tagged
      `class`, its `name`, then its first child, whose `include` children are
      read. */
  function ClassesLeaves(t: string, elems: seq<Node>): (r: Result<seq<TestCase>>)
    ensures r.Ok? ==> forall tc :: tc in r.value ==> tc.test == t
    decreases |elems|
  {
    if elems == [] then Ok([])
    else
      var prior := ClassesLeaves(t, elems[..|elems| - 1]);
      var e := elems[|elems| - 1];
      if prior.Err? || e.tag != "class" then prior
      else if "name" !in e.attrib then Err(MissingAttribute("class", "name"))
      else if |e.children| == 0 then Err(MissingFirstChild("class"))
      else
        var found := IncludesLeaves(t, e.attrib["name"], e.children[0].children);
        if found.Err? then found else Ok(prior.value + found.value)
  }

  /** The leaves of a `test` element: its `name`, then the classes inside its
      first child, whatever that child's tag. */
  function TestLeaves(node: Node): (r: Result<seq<TestCase>>)
    ensures r.Ok? && "name" in node.attrib ==> forall tc :: tc in r.value ==> tc.test == node.attrib["name"]
  {
    if "name" !in node.attrib then Err(MissingAttribute("test", "name"))
    else if |node.children| == 0 then Err(MissingFirstChild("test"))
    else ClassesLeaves(node.attrib["name"], node.children[0].children)
  }

  /** The leaves of the document at `path`, walking at most `fuel` documents
      deep; running out stands for the interpreter's recursion limit, since
      nothing in the collector stops a reference cycle. */
  function LeavesInXml(store: Store, host: Host, path: string, fuel: nat): Result<seq<TestCase>>
    decreases fuel, 0, 0
  {
    if fuel == 0 then Err(RecursionLimit(path))
    else if path !in store then Err(Unreadable(path))
    else LeavesInNodes(store, host, path, store[path].children, fuel - 1)
  }

  /** The leaves of a document's top-level children, in order. */
  function LeavesInNodes(store: Store, host: Host, path: string, nodes: seq<Node>, fuel: nat): Result<seq<TestCase>>
    decreases fuel, 3, |nodes|
  {
    if nodes == [] then Ok([])
    else
      var prior := LeavesInNodes(store, host, path, nodes[..|nodes| - 1], fuel);
      if prior.Err? then prior
      else
        var found := LeavesInNode(store, host, path, nodes[|nodes| - 1], fuel);
        if found.Err? then found else Ok(prior.value + found.value)
  }

  /** The leaves of one top-level child: a `test`, a `suite-files` list, or
      nothing for any other tag. */
  function LeavesInNode(store: Store, host: Host, path: string, node: Node, fuel: nat): Result<seq<TestCase>>
    decreases fuel, 2, |node.children| + 1
  {
    if node.tag == "test" then TestLeaves(node)
    else if node.tag == "suite-files" then LeavesInSuiteFiles(store, host, path, node.children, fuel)
    else Ok([])
  }

  /** The leaves of the files a `suite-files` list names, in order; each
      path is resolved against the directory of `path`, the document that
      holds the list. */
  function LeavesInSuiteFiles(store: Store, host: Host, path: string, entries: seq<Node>, fuel: nat): Result<seq<TestCase>>
    decreases fuel, 1, |entries|
  {
    if entries == [] then Ok([])
    else
      var prior := LeavesInSuiteFiles(store, host, path, entries[..|entries| - 1], fuel);
      var e := entries[|entries| - 1];
      if prior.Err? || e.tag != "suite-file" then prior
      else if "path" !in e.attrib then Err(MissingAttribute("suite-file", "path"))
      else
        var found := LeavesInXml(store, host, SuiteFilePath(host, path, e.attrib["path"]), fuel);
        if found.Err? then found else Ok(prior.value + found.value)
  }

  /** The leaves the selection keeps, in their order. */
  function Select(cases: seq<TestCase>, collectAll: bool, requested: seq<string>): (r: seq<TestCase>)
    ensures |r| <= |cases|
    decreases |cases|
  {
    if cases == [] then []
    else
      var prior := Select(cases[..|cases| - 1], collectAll, requested);
      var last := cases[|cases| - 1];
      if Selected(last.name, collectAll, requested) then prior + [last] else prior
  }

  /** The names of a sequence of leaves, in order. */
  function NamesOf(cases: seq<TestCase>): (r: seq<string>)
    ensures |r| == |cases|
    ensures forall i :: 0 <= i < |cases| ==> r[i] == cases[i].name
    decreases |cases|
  {
    if cases == [] then []
    else NamesOf(cases[..|cases| - 1]) + [cases[|cases| - 1].name]
  }

  /** Selecting from two runs of leaves is selecting from each. */
  lemma {:induction false} SelectAppend(a: seq<TestCase>, b: seq<TestCase>, collectAll: bool, requested: seq<string>)
    ensures Select(a + b, collectAll, requested) == Select(a, collectAll, requested) + Select(b, collectAll, requested)
    decreases |b|
  {
    if b != [] {
      var b' := b[..|b| - 1];
      SelectAppend(a, b', collectAll, requested);
      assert (a + b)[..|a + b| - 1] == a + b';
      assert (a + b)[|a + b| - 1] == b[|b| - 1];
    } else {
      assert a + b == a;
    }
  }

  /** Selecting from one more leaf keeps it exactly when its name is
      selected; stated after any earlier additions `before`. */
  lemma SelectStep(before: seq<TestCase>, prior: seq<TestCase>, last: TestCase, collectAll: bool, requested: seq<string>)
    ensures Selected(last.name, collectAll, requested) ==>
      before + Select(prior + [last], collectAll, requested) == before + Select(prior, collectAll, requested) + [last]
    ensures !Selected(last.name, collectAll, requested) ==>
      before + Select(prior + [last], collectAll, requested) == before + Select(prior, collectAll, requested)
  {
  }

  /** Selecting from two runs of leaves, after any earlier additions
      `before`, is selecting from the first and then from the second. */
  lemma SelectExtend(before: seq<TestCase>, found: seq<TestCase>, more: seq<TestCase>, collectAll: bool, requested: seq<string>)
    ensures before + Select(found + more, collectAll, requested)
         == before + Select(found, collectAll, requested) + Select(more, collectAll, requested)
  {
    SelectAppend(found, more, collectAll, requested);
  }

  // One more element of a sequence, as the collector's loops see it: after
  // a prefix that gave `found`, the longer prefix gives `found` extended by
  // what the element gives, or that element's error.

  lemma IncludesStep(t: string, c: string, elems: seq<Node>, k: nat, found: seq<TestCase>)
    requires k < |elems| && IncludesLeaves(t, c, elems[..k]) == Ok(found)
    ensures IncludesLeaves(t, c, elems[..k + 1])
         == if elems[k].tag != "include" then Ok(found)
            else if "name" !in elems[k].attrib then Err(MissingAttribute("include", "name"))
            else Ok(found + [TestCase(t, c, elems[k].attrib["name"])])
  {
    assert elems[..k + 1][..k] == elems[..k];
  }

  lemma ClassesStep(t: string, elems: seq<Node>, k: nat, found: seq<TestCase>)
    requires k < |elems| && ClassesLeaves(t, elems[..k]) == Ok(found)
    ensures ClassesLeaves(t, elems[..k + 1])
         == if elems[k].tag != "class" then Ok(found)
            else if "name" !in elems[k].attrib then Err(MissingAttribute("class", "name"))
            else if |elems[k].children| == 0 then Err(MissingFirstChild("class"))
            else
              var more := IncludesLeaves(t, elems[k].attrib["name"], elems[k].children[0].children);
              if more.Err? then more else Ok(found + more.value)
  {
    assert elems[..k + 1][..k] == elems[..k];
  }

  lemma NodesStep(store: Store, host: Host, path: string, nodes: seq<Node>, fuel: nat, k: nat, found: seq<TestCase>)
    requires k < |nodes| && LeavesInNodes(store, host, path, nodes[..k], fuel) == Ok(found)
    ensures LeavesInNodes(store, host, path, nodes[..k + 1], fuel)
         == var more := LeavesInNode(store, host, path, nodes[k], fuel);
            if more.Err? then more else Ok(found + more.value)
  {
    assert nodes[..k + 1][..k] == nodes[..k];
  }

  lemma SuiteFilesStep(store: Store, host: Host, path: string, entries: seq<Node>, fuel: nat, k: nat, found: seq<TestCase>)
    requires k < |entries| && LeavesInSuiteFiles(store, host, path, entries[..k], fuel) == Ok(found)
    ensures LeavesInSuiteFiles(store, host, path, entries[..k + 1], fuel)
         == if entries[k].tag != "suite-file" then Ok(found)
            else if "path" !in entries[k].attrib then Err(MissingAttribute("suite-file", "path"))
            else
              var more := LeavesInXml(store, host, SuiteFilePath(host, path, entries[k].attrib["path"]), fuel);
              if more.Err? then more else Ok(found + more.value)
  {
    assert entries[..k + 1][..k] == entries[..k];
  }

  /** The selection keeps exactly the leaves whose names are selected. */
  lemma {:induction false} SelectMembers(cases: seq<TestCase>, collectAll: bool, requested: seq<string>)
    ensures forall tc :: tc in Select(cases, collectAll, requested) <==> tc in cases && Selected(tc.name, collectAll, requested)
    decreases |cases|
  {
    if cases != [] {
      SelectMembers(cases[..|cases| - 1], collectAll, requested);
      assert cases == cases[..|cases| - 1] + [cases[|cases| - 1]];
    }
  }

  /** The selection keeps every copy of a selected leaf, duplicates
      included, and no copy of any other. */
  lemma {:induction false} SelectCounts(cases: seq<TestCase>, collectAll: bool, requested: seq<string>, tc: TestCase)
    ensures multiset(Select(cases, collectAll, requested))[tc] ==
      if Selected(tc.name, collectAll, requested) then multiset(cases)[tc] else 0
    decreases |cases|
  {
    if cases != [] {
      var init := cases[..|cases| - 1];
      SelectCounts(init, collectAll, requested, tc);
      assert cases == init + [cases[|cases| - 1]];
    }
  }

  /** In collect-all mode every leaf is kept, in order. */
  lemma {:induction false} SelectAll(cases: seq<TestCase>, requested: seq<string>)
    ensures Select(cases, true, requested) == cases
    decreases |cases|
  {
    if cases != [] {
      SelectAll(cases[..|cases| - 1], requested);
    }
  }

  // Fuel only cuts a walk short: a walk that succeeds with some depth bound
  // gives the same leaves with any larger one.

  lemma {:induction false} XmlFuelMonotone(store: Store, host: Host, path: string, f: nat, g: nat)
    requires f <= g && LeavesInXml(store, host, path, f).Ok?
    ensures LeavesInXml(store, host, path, g) == LeavesInXml(store, host, path, f)
    decreases f, 0, 0
  {
    NodesFuelMonotone(store, host, path, store[path].children, f - 1, g - 1);
  }

  lemma {:induction false} NodesFuelMonotone(store: Store, host: Host, path: string, nodes: seq<Node>, f: nat, g: nat)
    requires f <= g && LeavesInNodes(store, host, path, nodes, f).Ok?
    ensures LeavesInNodes(store, host, path, nodes, g) == LeavesInNodes(store, host, path, nodes, f)
    decreases f, 3, |nodes|
  {
    if nodes != [] {
      NodesFuelMonotone(store, host, path, nodes[..|nodes| - 1], f, g);
      NodeFuelMonotone(store, host, path, nodes[|nodes| - 1], f, g);
    }
  }

  lemma {:induction false} NodeFuelMonotone(store: Store, host: Host, path: string, node: Node, f: nat, g: nat)
    requires f <= g && LeavesInNode(store, host, path, node, f).Ok?
    ensures LeavesInNode(store, host, path, node, g) == LeavesInNode(store, host, path, node, f)
    decreases f, 2, |node.children| + 1
  {
    if node.tag == "suite-files" {
      SuiteFilesFuelMonotone(store, host, path, node.children, f, g);
    }
  }

  lemma {:induction false} SuiteFilesFuelMonotone(store: Store, host: Host, path: string, entries: seq<Node>, f: nat, g: nat)
    requires f <= g && LeavesInSuiteFiles(store, host, path, entries, f).Ok?
    ensures LeavesInSuiteFiles(store, host, path, entries, g) == LeavesInSuiteFiles(store, host, path, entries, f)
    decreases f, 1, |entries|
  {
    if entries != [] {
      SuiteFilesFuelMonotone(store, host, path, entries[..|entries| - 1], f, g);
      var e := entries[|entries| - 1];
      if e.tag == "suite-file" && "path" in e.attrib {
        XmlFuelMonotone(store, host, SuiteFilePath(host, path, e.attrib["path"]), f, g);
      }
    }
  }

  // Once a prefix of a list has failed, the whole list fails with the same
  // error: the collector stops at the first exception.

  lemma {:induction false} IncludesErrorPersists(t: string, c: string, elems: seq<Node>, k: nat)
    requires k <= |elems| && IncludesLeaves(t, c, elems[..k]).Err?
    ensures IncludesLeaves(t, c, elems) == IncludesLeaves(t, c, elems[..k])
    decreases |elems| - k
  {
    if k < |elems| {
      var init := elems[..|elems| - 1];
      assert init[..k] == elems[..k];
      IncludesErrorPersists(t, c, init, k);
    } else {
      assert elems[..k] == elems;
    }
  }

  lemma {:induction false} ClassesErrorPersists(t: string, elems: seq<Node>, k: nat)
    requires k <= |elems| && ClassesLeaves(t, elems[..k]).Err?
    ensures ClassesLeaves(t, elems) == ClassesLeaves(t, elems[..k])
    decreases |elems| - k
  {
    if k < |elems| {
      var init := elems[..|elems| - 1];
      assert init[..k] == elems[..k];
      ClassesErrorPersists(t, init, k);
    } else {
      assert elems[..k] == elems;
    }
  }

  lemma {:induction false} NodesErrorPersists(store: Store, host: Host, path: string, nodes: seq<Node>, fuel: nat, k: nat)
    requires k <= |nodes| && LeavesInNodes(store, host, path, nodes[..k], fuel).Err?
    ensures LeavesInNodes(store, host, path, nodes, fuel) == LeavesInNodes(store, host, path, nodes[..k], fuel)
    decreases |nodes| - k
  {
    if k < |nodes| {
      var init := nodes[..|nodes| - 1];
      assert init[..k] == nodes[..k];
      NodesErrorPersists(store, host, path, init, fuel, k);
    } else {
      assert nodes[..k] == nodes;
    }
  }

  lemma {:induction false} SuiteFilesErrorPersists(store: Store, host: Host, path: string, entries: seq<Node>, fuel: nat, k: nat)
    requires k <= |entries| && LeavesInSuiteFiles(store, host, path, entries[..k], fuel).Err?
    ensures LeavesInSuiteFiles(store, host, path, entries, fuel) == LeavesInSuiteFiles(store, host, path, entries[..k], fuel)
    decreases |entries| - k
  {
    if k < |entries| {
      var init := entries[..|entries| - 1];
      assert init[..k] == entries[..k];
      SuiteFilesErrorPersists(store, host, path, init, fuel, k);
    } else {
      assert entries[..k] == entries;
    }
  }

  /** A top-level child that is neither `test` nor `suite-files` adds
      nothing, wherever it stands. */
  lemma {:induction false} SkippedNodeFirst(store: Store, host: Host, path: string, skipped: Node, nodes: seq<Node>, fuel: nat)
    requires skipped.tag != "test" && skipped.tag != "suite-files"
    ensures LeavesInNodes(store, host, path, [skipped] + nodes, fuel) == LeavesInNodes(store, host, path, nodes, fuel)
    decreases |nodes|
  {
    var all := [skipped] + nodes;
    assert LeavesInNode(store, host, path, skipped, fuel) == Ok([]);
    if nodes == [] {
      assert all[..0] == [];
      var none: seq<TestCase> := [];
      assert LeavesInNodes(store, host, path, all, fuel) == Ok(none + none);
      assert none + none == none;
    } else {
      SkippedNodeFirst(store, host, path, skipped, nodes[..|nodes| - 1], fuel);
      assert all[..|all| - 1] == [skipped] + nodes[..|nodes| - 1];
    }
  }
}
