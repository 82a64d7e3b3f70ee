/** The two-level dictionary test -> class -> list of test-case names that the
    collector fills, with Python's insertion order at both levels. */
module Aggregator {
  import opened Xml

  predicate Distinct(xs: seq<string>) {
    forall i, j :: 0 <= i < j < |xs| ==> xs[i] != xs[j]
  }

  // What the dictionary holds after a sequence of additions, stated on the
  // additions alone.

  /** The test names, each once, in the order of their first addition. */
  function TestOrder(cases: seq<TestCase>): (r: seq<string>)
    ensures Distinct(r)
    decreases |cases|
  {
    if cases == [] then []
    else
      var prior := TestOrder(cases[..|cases| - 1]);
      var last := cases[|cases| - 1];
      if last.test in prior then prior else prior + [last.test]
  }

  /** The class names under test `t`, each once, in the order of their first
      addition under `t`. */
  function ClassOrder(cases: seq<TestCase>, t: string): (r: seq<string>)
    ensures Distinct(r)
    decreases |cases|
  {
    if cases == [] then []
    else
      var prior := ClassOrder(cases[..|cases| - 1], t);
      var last := cases[|cases| - 1];
      if last.test == t && last.cls !in prior then prior + [last.cls] else prior
  }

  /** The names added under test `t` and class `c`, in the order added,
      repetitions kept. */
  function Names(cases: seq<TestCase>, t: string, c: string): seq<string>
    decreases |cases|
  {
    if cases == [] then []
    else
      var prior := Names(cases[..|cases| - 1], t, c);
      var last := cases[|cases| - 1];
      if last.test == t && last.cls == c then prior + [last.name] else prior
  }

  // One more addition changes the three views only where it lands.

  lemma AddedTest(cases: seq<TestCase>, m: TestCase)
    ensures TestOrder(cases + [m]) == if m.test in TestOrder(cases) then TestOrder(cases) else TestOrder(cases) + [m.test]
  {
  }

  lemma AddedClass(cases: seq<TestCase>, m: TestCase, t: string)
    ensures ClassOrder(cases + [m], t) ==
      if t == m.test && m.cls !in ClassOrder(cases, t) then ClassOrder(cases, t) + [m.cls] else ClassOrder(cases, t)
  {
  }

  lemma AddedName(cases: seq<TestCase>, m: TestCase, t: string, c: string)
    ensures Names(cases + [m], t, c) ==
      if t == m.test && c == m.cls then Names(cases, t, c) + [m.name] else Names(cases, t, c)
  {
  }

  /** No group is ever empty: a test is present exactly when it has a class,
      and a class exactly when it has a name. */
  lemma {:induction false} GroupsNonEmpty(cases: seq<TestCase>, t: string, c: string)
    ensures t in TestOrder(cases) <==> ClassOrder(cases, t) != []
    ensures c in ClassOrder(cases, t) <==> Names(cases, t, c) != []
    decreases |cases|
  {
    if cases != [] {
      var init := cases[..|cases| - 1];
      var m := cases[|cases| - 1];
      GroupsNonEmpty(init, t, c);
      AddedTest(init, m);
      AddedClass(init, m, t);
      AddedName(init, m, t, c);
      assert init + [m] == cases;
    }
  }

  /** The inner dictionary of one test: class names in insertion order, and
      the list of names for each. */
  datatype ClassDict = ClassDict(order: seq<string>, lists: map<string, seq<string>>)

  /** The dictionary's fields hold exactly what the additions `cases` give:
      the test keys in first-added order, for each test its class keys in
      first-added order, and for each class the names added under it. */
  ghost predicate Represents(tests: seq<string>, classes: map<string, ClassDict>, cases: seq<TestCase>) {
    && tests == TestOrder(cases)
    && (forall t :: t in classes <==> t in tests)
    && (forall t | t in classes ::
          && classes[t].order == ClassOrder(cases, t)
          && (forall c :: c in classes[t].lists <==> c in classes[t].order)
          && (forall c | c in classes[t].lists :: classes[t].lists[c] == Names(cases, t, c)))
  }

  /** The dictionary as a value: the test keys in insertion order, and the
      inner dictionary of each test. */
  datatype Dict = Dict(tests: seq<string>, classes: map<string, ClassDict>)

  /** One call of `add_test_case_to_dictionary` on a dictionary value: a new
      test gets `{c: [n]}` as its last key; a new class under a known test
      gets `[n]` as that test's last class; a known pair gets `n` appended to
      its list. */
  function AddCase(d: Dict, m: TestCase): Dict
  {
    if m.test in d.classes then
      var inner := d.classes[m.test];
      if m.cls in inner.lists then
        Dict(d.tests, d.classes[m.test := inner.(lists := inner.lists[m.cls := inner.lists[m.cls] + [m.name]])])
      else
        Dict(d.tests, d.classes[m.test := ClassDict(inner.order + [m.cls], inner.lists[m.cls := [m.name]])])
    else
      Dict(d.tests + [m.test], d.classes[m.test := ClassDict([m.cls], map[m.cls := [m.name]])])
  }

  /** The dictionary after the additions `cases`, starting from empty. */
  function Build(cases: seq<TestCase>): Dict
    decreases |cases|
  {
    if cases == [] then Dict([], map[])
    else AddCase(Build(cases[..|cases| - 1]), cases[|cases| - 1])
  }

  /** The dictionary `tc_dict`, updated in place by `Add`. */
  class TestCasesDict {
    var tests: seq<string>
    var classes: map<string, ClassDict>
    /** Every (test, class, name) added so far, in call order. */
    ghost var Matches: seq<TestCase>

    ghost predicate Valid()
      reads this
    {
      Dict(tests, classes) == Build(Matches)
    }

    constructor ()
      ensures Valid() && Matches == []
      ensures tests == [] && classes == map[]
    {
      tests, classes := [], map[];
      Matches := [];
    }

    /** `add_test_case_to_dictionary`, in place. Nothing else changes. */
    method Add(t: string, c: string, n: string)
      requires Valid()
      modifies this
      ensures Valid()
      ensures Matches == old(Matches) + [TestCase(t, c, n)]
      ensures t !in old(classes) ==>
        && tests == old(tests) + [t]
        && classes == old(classes)[t := ClassDict([c], map[c := [n]])]
      ensures t in old(classes) && c !in old(classes[t].lists) ==>
        && tests == old(tests)
        && classes == old(classes)[t := ClassDict(old(classes[t].order) + [c], old(classes[t].lists)[c := [n]])]
      ensures t in old(classes) && c in old(classes[t].lists) ==>
        && tests == old(tests)
        && classes == old(classes)[t := old(classes[t]).(lists := old(classes[t].lists)[c := old(classes[t].lists[c]) + [n]])]
    {
      if t in classes {
        var inner := classes[t];
        if c in inner.lists {
          classes := classes[t := inner.(lists := inner.lists[c := inner.lists[c] + [n]])];
        } else {
          classes := classes[t := ClassDict(inner.order + [c], inner.lists[c := [n]])];
        }
      } else {
        tests := tests + [t];
        classes := classes[t := ClassDict([c], map[c := [n]])];
      }
      assert (Matches + [TestCase(t, c, n)])[..|Matches|] == Matches;
      Matches := Matches + [TestCase(t, c, n)];
    }
  }

  /** One addition keeps the dictionary equal to the grouping of its
      additions. */
  lemma AddKeepsRepresentation(tests: seq<string>, classes: map<string, ClassDict>, cases: seq<TestCase>, m: TestCase,
                               tests': seq<string>, classes': map<string, ClassDict>)
    requires Represents(tests, classes, cases)
    requires m.test !in classes ==>
      && tests' == tests + [m.test]
      && classes' == classes[m.test := ClassDict([m.cls], map[m.cls := [m.name]])]
    requires m.test in classes && m.cls !in classes[m.test].lists ==>
      && tests' == tests
      && classes' == classes[m.test := ClassDict(classes[m.test].order + [m.cls], classes[m.test].lists[m.cls := [m.name]])]
    requires m.test in classes && m.cls in classes[m.test].lists ==>
      && tests' == tests
      && classes' == classes[m.test := classes[m.test].(lists := classes[m.test].lists[m.cls := classes[m.test].lists[m.cls] + [m.name]])]
    ensures Represents(tests', classes', cases + [m])
  {
    var after := cases + [m];
    AddedTest(cases, m);
    GroupsNonEmpty(cases, m.test, m.cls);
    forall x | x in classes'
      ensures classes'[x].order == ClassOrder(after, x)
      ensures forall y :: y in classes'[x].lists <==> y in classes'[x].order
      ensures forall y | y in classes'[x].lists :: classes'[x].lists[y] == Names(after, x, y)
    {
      AddedClass(cases, m, x);
      forall y | y in classes'[x].lists
        ensures classes'[x].lists[y] == Names(after, x, y)
      {
        AddedName(cases, m, x, y);
        if x == m.test && m.test !in classes {
          GroupsNonEmpty(cases, x, y);
        }
      }
    }
  }

  /** However the additions went, the dictionary built from them holds each
      test once in first-added order, each test's classes once in
      first-added order, and each class's names in the order added. */
  lemma {:induction false} BuildRepresents(cases: seq<TestCase>)
    ensures Represents(Build(cases).tests, Build(cases).classes, cases)
    decreases |cases|
  {
    if cases != [] {
      var init := cases[..|cases| - 1];
      BuildRepresents(init);
      var d, m := Build(init), cases[|cases| - 1];
      AddKeepsRepresentation(d.tests, d.classes, init, m, AddCase(d, m).tests, AddCase(d, m).classes);
      assert init + [m] == cases;
    }
  }

  // The dictionary read out in its own order, as the serializer emits it.

  /** The names of one class as leaves under `t` and `c`. */
  function Tagged(t: string, c: string, names: seq<string>): (r: seq<TestCase>)
    ensures |r| == |names|
    ensures forall i :: 0 <= i < |names| ==> r[i] == TestCase(t, c, names[i])
  {
    seq(|names|, i requires 0 <= i < |names| => TestCase(t, c, names[i]))
  }

  /** The leaves of test `t`'s classes `cs`, class after class. */
  function ClassBlocks(cases: seq<TestCase>, t: string, cs: seq<string>): seq<TestCase>
    decreases |cs|
  {
    if cs == [] then []
    else
      var c := cs[|cs| - 1];
      ClassBlocks(cases, t, cs[..|cs| - 1]) + Tagged(t, c, Names(cases, t, c))
  }

  /** The leaves of the tests `ts`, test after test. */
  function TestBlocks(cases: seq<TestCase>, ts: seq<string>): seq<TestCase>
    decreases |ts|
  {
    if ts == [] then []
    else
      var t := ts[|ts| - 1];
      TestBlocks(cases, ts[..|ts| - 1]) + ClassBlocks(cases, t, ClassOrder(cases, t))
  }

  /** Every addition, grouped by test and then by class, in the dictionary's
      insertion orders. */
  function Regrouped(cases: seq<TestCase>): seq<TestCase> {
    TestBlocks(cases, TestOrder(cases))
  }

  lemma {:induction false} ClassBlocksOtherTest(cases: seq<TestCase>, m: TestCase, t: string, cs: seq<string>)
    requires t != m.test
    ensures ClassBlocks(cases + [m], t, cs) == ClassBlocks(cases, t, cs)
    decreases |cs|
  {
    if cs != [] {
      AddedName(cases, m, t, cs[|cs| - 1]);
      ClassBlocksOtherTest(cases, m, t, cs[..|cs| - 1]);
    }
  }

  lemma {:induction false} ClassBlocksSameTest(cases: seq<TestCase>, m: TestCase, cs: seq<string>)
    requires Distinct(cs)
    ensures multiset(ClassBlocks(cases + [m], m.test, cs))
         == multiset(ClassBlocks(cases, m.test, cs)) + (if m.cls in cs then multiset{m} else multiset{})
    decreases |cs|
  {
    if cs != [] {
      var init := cs[..|cs| - 1];
      var c := cs[|cs| - 1];
      assert init + [c] == cs;
      ClassBlocksSameTest(cases, m, init);
      AddedName(cases, m, m.test, c);
      var names := Names(cases, m.test, c);
      if c == m.cls {
        assert m.cls !in init;
        assert Tagged(m.test, c, names + [m.name]) == Tagged(m.test, c, names) + [m];
      } else {
        assert m.cls in cs <==> m.cls in init;
      }
    }
  }

  /** One test's block after one more addition: it gains the addition when
      the addition is for that test, and is otherwise unchanged. */
  lemma BlockStep(cases: seq<TestCase>, m: TestCase, t: string)
    ensures multiset(ClassBlocks(cases + [m], t, ClassOrder(cases + [m], t)))
         == multiset(ClassBlocks(cases, t, ClassOrder(cases, t))) + (if t == m.test then multiset{m} else multiset{})
  {
    var after := cases + [m];
    var order := ClassOrder(cases, t);
    AddedClass(cases, m, t);
    if t == m.test {
      ClassBlocksSameTest(cases, m, order);
      if m.cls !in order {
        GroupsNonEmpty(cases, t, m.cls);
        AddedName(cases, m, t, m.cls);
        var order' := order + [m.cls];
        assert order'[..|order|] == order;
        assert ClassBlocks(after, t, order') == ClassBlocks(after, t, order) + Tagged(t, m.cls, [m.name]);
        assert Tagged(t, m.cls, [m.name]) == [m];
      }
    } else {
      ClassBlocksOtherTest(cases, m, t, order);
    }
  }

  lemma {:induction false} TestBlocksStep(cases: seq<TestCase>, m: TestCase, ts: seq<string>)
    requires Distinct(ts)
    ensures multiset(TestBlocks(cases + [m], ts))
         == multiset(TestBlocks(cases, ts)) + (if m.test in ts then multiset{m} else multiset{})
    decreases |ts|
  {
    if ts != [] {
      var init := ts[..|ts| - 1];
      var t := ts[|ts| - 1];
      var after := cases + [m];
      assert init + [t] == ts;
      assert Distinct(init);
      TestBlocksStep(cases, m, init);
      assert TestBlocks(after, ts) == TestBlocks(after, init) + ClassBlocks(after, t, ClassOrder(after, t));
      assert TestBlocks(cases, ts) == TestBlocks(cases, init) + ClassBlocks(cases, t, ClassOrder(cases, t));
      BlockStep(cases, m, t);
      if t == m.test {
        assert m.test !in init;
      } else {
        assert m.test in ts <==> m.test in init;
      }
    }
  }

  /** An addition under a new test appends that test's block, which holds
      just the addition. */
  lemma NewTestStep(init: seq<TestCase>, m: TestCase)
    requires m.test !in TestOrder(init)
    ensures multiset(Regrouped(init + [m])) == multiset(TestBlocks(init + [m], TestOrder(init))) + multiset{m}
  {
    var cases := init + [m];
    var order := TestOrder(init);
    AddedTest(init, m);
    var order' := order + [m.test];
    assert order'[..|order|] == order;
    assert Regrouped(cases) == TestBlocks(cases, order) + ClassBlocks(cases, m.test, ClassOrder(cases, m.test));
    BlockStep(init, m, m.test);
    GroupsNonEmpty(init, m.test, m.cls);
    assert ClassOrder(init, m.test) == [];
  }

  /** Regrouping loses and invents nothing: the grouped output holds exactly
      the additions, each as often as it was made. */
  lemma {:induction false} RegroupedIsPermutation(cases: seq<TestCase>)
    ensures multiset(Regrouped(cases)) == multiset(cases)
    ensures |Regrouped(cases)| == |cases|
    decreases |cases|
  {
    if cases != [] {
      var init := cases[..|cases| - 1];
      var m := cases[|cases| - 1];
      assert init + [m] == cases;
      RegroupedIsPermutation(init);
      var order := TestOrder(init);
      TestBlocksStep(init, m, order);
      if m.test !in order {
        NewTestStep(init, m);
      } else {
        AddedTest(init, m);
      }
      assert |multiset(Regrouped(cases))| == |multiset(cases)|;
    }
  }
}
