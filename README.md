# xml_collector, modelled in Dafny

`xml_collector.1.00.05.py` merges TestNG suite descriptors into one suite.
It reads a root descriptor and walks its `test` elements. For each
`class` inside a test, it looks at the `include` leaves, and it follows
`suite-files` references into further descriptors, depth first. A leaf is
kept when its name was requested on the command line, or when every leaf
was asked for. Kept leaves are grouped in an insertion-ordered dictionary,
test → class → names. The result is written as a single `mergedSuite`
document.

The model follows the script's own structure:

- `Xml`: the data the script works on.
  - Parsed elements (`Node`).
  - The files a run can parse, as a map from path to root element (`Store`).
  - The test cases found (`TestCase`).
  - The exceptions that end a run (`Error`).
- `Args`: how the command line is read.
  - The two paths and their defaults.
  - The collect-all marker.
  - Python's `str.split(",")`, with its round trip proved.
- `Paths`: the separator normalisation of a `suite-file` path, and how the
  path is joined to the directory of the referencing document.
- `Walk`: a pure depth-first definition of what the collector finds. It is
  the sequence of leaves in document order, or the first error met. It
  comes with:
  - the selection filter;
  - the proof that more recursion depth never changes a successful result;
  - the proof that the first error ends the walk.
- `Aggregator`: the dictionary `tc_dict`, a class updated in place by
  `Add`.
  - Its invariant: its fields are the fold of the add step over the
    additions made so far.
  - Proved about that fold: each level holds its keys once, in
    first-added order, and each class keeps its names in call order.
  - Reading the dictionary out in key order is a permutation of the
    additions.
- `Serializer`: `create_xml_tree` as three nested loops, proved to build
  the element tree the specification function describes. It is also
  proved that collecting the merged suite again gives back every
  addition, regrouped.
- `Collector`: the script's globals as a class `Run`, with:
  - `parse_args`, `verify_args`, and the recursive walk methods, each
    proved against `Walk`;
  - the writer;
  - the main block `RunScript`, whose contract gives the exit codes, the
    crash cases and the written document.

The file system is a parameter:

- `existing` is what `os.path.exists` reports.
- `openOutput` is what opening the output file gives.
- `store` holds the documents the parser accepts.
- `host` is the separator together with the host's `dirname(abspath(..))`
  and `join`.

Python's recursion limit is the `fuel` parameter. It is the deepest
suite-file nesting allowed. Running out is the `RecursionLimit` error,
which is what a reference cycle produces, since the script has no cycle
guard.

Version 1.00.05 behaves as follows, and so does the model:

- There is no name-prefix argument.
- A run that matches nothing is not an error: it writes the wrapper with
  no `test` elements.
- The requested list is split on `,` only, and nothing is trimmed. An
  empty third argument is therefore the list `[""]`, not an empty
  selection. Exit code 103 happens exactly when there is no third
  argument.
- Only a "file not found" failure when opening the output gives exit code
  102. Any other failure escapes as an exception.
- The container of a class's `include` elements is tagged `methods`.

## Model

| member | source | states |
|---|---|---|
| Args.Split | xml_collector.1.00.05.py:42 | `str.split(sep)` always gives at least one piece, and no piece contains the separator |
| Args.XmlPathArg | xml_collector.1.00.05.py:30-32 | reference definition: the first argument when present, else `global.xml` |
| Args.OutputArg | xml_collector.1.00.05.py:33-35 | reference definition: the second argument when present, else `output.xml` |
| Args.CollectAllArg | xml_collector.1.00.05.py:36-39 | reference definition: collect-all is on exactly when a third argument is `*` or `__all` |
| Args.TestListArg | xml_collector.1.00.05.py:36-42 | reference definition: the comma split of any other third argument, else no names |
| Args.Selected | xml_collector.1.00.05.py:98 | reference definition of the selection test: collect-all, or exact membership of the name in the requested list |
| Args.JoinSplit | xml_collector.1.00.05.py:42 | splitting loses nothing: joining the pieces with the separator gives the argument back |
| Args.SplitJoin | xml_collector.1.00.05.py:42 | splitting undoes joining for any non-empty list of separator-free pieces, so the two are inverse |
| Args.EmptySelectionIffNoArgument | xml_collector.1.00.05.py:65-67 | the 103 condition (collect-all off and an empty requested list) holds exactly when argv has no third argument |
| Args.RequestedNamesRebuildArgument | xml_collector.1.00.05.py:42 | the requested names, joined by commas, are exactly the third argument, and none contains a comma |
| Paths.Replace | xml_collector.1.00.05.py:110 | `str.replace` of one character: same length, and each position is replaced exactly when it held the target |
| Paths.NormalizeSeparators | xml_collector.1.00.05.py:110 | every `\` and `/` becomes the host separator, every other character is kept, and no other slash remains |
| Paths.NormalizeIdempotent | xml_collector.1.00.05.py:110 | normalising an already normalised path changes nothing |
| Paths.SuiteFilePath | xml_collector.1.00.05.py:110-111 | reference definition: the normalised relative path joined to the directory of the absolute path of the referencing document |
| Walk.IncludesLeaves | xml_collector.1.00.05.py:95-97 | the leaves of one class are at most as many as its children and all carry that test and class |
| Walk.ClassesLeaves | xml_collector.1.00.05.py:91-97 | every leaf found under a test's classes carries that test's name |
| Walk.TestLeaves | xml_collector.1.00.05.py:88-91 | every leaf of a named `test` element carries its name |
| Walk.LeavesInXml | xml_collector.1.00.05.py:78-83 | reference definition of the walk of one document: no depth left is the recursion error, a file not in the store is unreadable, else the leaves of its children |
| Walk.LeavesInNodes | xml_collector.1.00.05.py:81-83 | reference definition: the children's leaves concatenated in document order, stopping at the first error |
| Walk.LeavesInNode | xml_collector.1.00.05.py:86-115 | reference definition: a `test` gives its leaves, `suite-files` the leaves of the files it names, any other tag nothing |
| Walk.LeavesInSuiteFiles | xml_collector.1.00.05.py:106-114 | reference definition: each `suite-file` needs `path`, and the named documents are walked in order with the depth left to the referencing document; other entries are skipped |
| Walk.Select | xml_collector.1.00.05.py:98 | selection keeps at most the leaves it is given |
| Walk.SelectMembers | xml_collector.1.00.05.py:98 | a leaf is kept if and only if it was found and collect-all is on or its name is an exact member of the requested list |
| Walk.SelectCounts | xml_collector.1.00.05.py:98 | a selected leaf is kept as many times as it was found, duplicates included; an unselected one not at all |
| Walk.SelectAll | xml_collector.1.00.05.py:98 | with collect-all every leaf is kept, in order |
| Walk.SelectAppend | xml_collector.1.00.05.py:81-83 | selecting from leaves found one after another keeps their order: selection distributes over concatenation |
| Walk.NamesOf | xml_collector.1.00.05.py:101 | the flat list has one name per kept leaf, position by position |
| Walk.XmlFuelMonotone | xml_collector.1.00.05.py:78-83 | a document walk that succeeds with some depth bound gives the same leaves with any larger bound |
| Walk.NodesFuelMonotone | xml_collector.1.00.05.py:81-83 | the same for a document's top-level children |
| Walk.NodeFuelMonotone | xml_collector.1.00.05.py:86-115 | the same for one top-level child |
| Walk.SuiteFilesFuelMonotone | xml_collector.1.00.05.py:106-114 | the same for the entries of a `suite-files` element |
| Walk.IncludesErrorPersists | xml_collector.1.00.05.py:95-97 | once a prefix of a class's children fails, the whole class fails with that same error |
| Walk.ClassesErrorPersists | xml_collector.1.00.05.py:91-95 | once a prefix of a test's class elements fails, all of them fail with that error |
| Walk.NodesErrorPersists | xml_collector.1.00.05.py:81-83 | once a prefix of a document's children fails, the document fails with that error |
| Walk.SuiteFilesErrorPersists | xml_collector.1.00.05.py:107-114 | once a prefix of the suite-file entries fails, the whole list fails with that error |
| Walk.SkippedNodeFirst | xml_collector.1.00.05.py:88 | a top-level child that is neither `test` nor `suite-files` adds nothing to what follows it |
| Aggregator.TestOrder | xml_collector.1.00.05.py:119-125 | the test keys the additions create hold no name twice |
| Aggregator.ClassOrder | xml_collector.1.00.05.py:119-123 | the class keys under one test hold no name twice |
| Aggregator.GroupsNonEmpty | xml_collector.1.00.05.py:118-125 | a test is a key if and only if it has a class, and a class if and only if it has a name: no empty group ever exists |
| Aggregator.AddCase | xml_collector.1.00.05.py:119-125 | reference definition of one `add_test_case_to_dictionary` call on dictionary values: new test, new class, or append to a known list |
| Aggregator.Build | xml_collector.1.00.05.py:118-125 | reference definition: the dictionary a sequence of additions leaves, folded from the empty one; the class invariant ties the fields to it |
| Aggregator.TestCasesDict.constructor | xml_collector.1.00.05.py:23 | the dictionary starts empty, with no additions |
| Aggregator.TestCasesDict.Add | xml_collector.1.00.05.py:118-125 | in place: a new test gets `{c: [n]}` as last key; a new class gets `[n]` as its test's last class; a known pair gets `n` appended; everything else is unchanged, and the invariant is kept |
| Aggregator.AddKeepsRepresentation | xml_collector.1.00.05.py:118-125 | each of the three update branches keeps the dictionary equal to the grouping of its additions, order included |
| Aggregator.BuildRepresents | xml_collector.1.00.05.py:118-125 | after any additions: test keys once each in first-added order, class keys per test likewise, and each class's names in call order with repeats kept |
| Aggregator.RegroupedIsPermutation | xml_collector.1.00.05.py:160-189 | the dictionary read out test by test and class by class holds exactly the additions, each as often as made, so the name count equals the addition count |
| Serializer.RepresentsIsWellKeyed | xml_collector.1.00.05.py:163-174 | every key the serializer iterates has its inner dictionary and its list |
| Serializer.IncludeElements | xml_collector.1.00.05.py:182-188 | one `include` element per listed name, in list order, named by that name and with no children |
| Serializer.ClassElements | xml_collector.1.00.05.py:174-181 | one `class` element per class key, in order, named by that key |
| Serializer.TestElements | xml_collector.1.00.05.py:163-173 | one `test` element per test key, in insertion order, named by that key |
| Serializer.ListenersElement | xml_collector.1.00.05.py:137-141 | reference definition: the fixed `listeners` element holding one `listener` with the fixed class name |
| Serializer.MergedSuite | xml_collector.1.00.05.py:134-142 | reference definition: the `suite` root named `mergedSuite`, the listeners first, then the test elements |
| Serializer.CreateXmlTree | xml_collector.1.00.05.py:160-189 | the nested loops build exactly the test → classes → class → methods → include tree of the dictionary, in insertion order |
| Serializer.ClassesOf | xml_collector.1.00.05.py:174-188 | the middle loop builds the class elements of one test, in key order |
| Serializer.MethodsOf | xml_collector.1.00.05.py:182-188 | the inner loop builds one `include` per listed name, in list order |
| Serializer.IncludesReadBack | xml_collector.1.00.05.py:182-188 | collecting the `include` elements written for a class gives back its names, tagged with test and class |
| Serializer.ClassesReadBack | xml_collector.1.00.05.py:174-188 | collecting a written `classes` element gives back each class's block of additions, in key order |
| Serializer.TestsReadBack | xml_collector.1.00.05.py:163-189 | collecting the written `test` elements gives back each test's block, in key order |
| Serializer.SuiteReadsBack | xml_collector.1.00.05.py:134-142 | the merged suite, read by the collector with any depth bound of at least one, yields exactly the regrouped additions, skipping the listeners |
| Collector.Run.constructor | xml_collector.1.00.05.py:18-24 | the globals start at `global.xml`, `output.xml`, no requested names, collect-all off, and an empty dictionary and flat list |
| Collector.Run.ParseArgs | xml_collector.1.00.05.py:29-42 | each present argument overrides its global; `*` or `__all` turns on collect-all, and any other third argument becomes the comma-split list |
| Collector.Run.VerifyArgs | xml_collector.1.00.05.py:51-69 | exit 101 without the root file, then 102 when the output is "not found", any other open failure escapes, then 103 with nothing selected, else proceed |
| Collector.Run.LookForTests | xml_collector.1.00.05.py:72-75 | the walk from the root descriptor records exactly the selected leaves the pure walk finds, in order, or fails with its first error |
| Collector.Run.LookForTestsInXml | xml_collector.1.00.05.py:78-83 | for one document: a missing or unparsable file or exhausted depth fails; otherwise the children's selected leaves are recorded in order |
| Collector.Run.CollectNodes | xml_collector.1.00.05.py:81-83 | the loop over a document's children records each child's selected leaves after those of the children before it |
| Collector.Run.LookForTestsInNode | xml_collector.1.00.05.py:86-115 | a `test` needs `name` and a first child, `suite-files` recurses, and any other tag records nothing |
| Collector.Run.CollectSuiteFiles | xml_collector.1.00.05.py:106-114 | each `suite-file` needs `path`; its document, resolved against the referencing document's directory, is walked in turn; other entries are skipped |
| Collector.Run.CollectClasses | xml_collector.1.00.05.py:91-105 | each `class` needs `name` and a first child, whose includes are searched; other tags are skipped |
| Collector.Run.CollectIncludes | xml_collector.1.00.05.py:95-104 | each `include` needs `name`; a selected one is recorded once, and an unselected one changes nothing |
| Collector.Run.Record | xml_collector.1.00.05.py:101-102 | one match appends its name to the flat list and one addition to the dictionary, keeping the list equal to the additions' names |
| Collector.Run.WriteTestCasesDictToXml | xml_collector.1.00.05.py:128-146 | the document is the `mergedSuite` root, the listeners, then exactly the tree `create_xml_tree` builds |
| Collector.RunScript | xml_collector.1.00.05.py:198-201 | the exit codes 101/102/103 and the crash cases, and on success: the flat list is the selected names in walk order, the document is exactly the merged suite of the dictionary those matches build (root, listeners, then test → classes → class → methods → include in insertion order), and reading it back gives the matches regrouped |

## Left out

- File and parser I/O (`ElementTree.parse`, `open`, `write`, `os.path.exists`) become parameters. These are the `store` of parsable documents, the `existing` set and the `openOutput` outcome. A file that is missing or malformed is the `Unreadable` error.
- `os.path.abspath`, `os.path.dirname` and `os.path.join` stay abstract functions of `Host`, because they depend on the working directory and the platform. Only the separator replacement is concrete.
- Text serialisation (`ElementTree.tostring`), the XML header string, and the `platform.system()` branch that picks the `tostring` call are not part of this model. The written document is the element tree.
- The whitespace `text` and `tail` assignments, and the `index` counter and last-element comparison that only choose them, are cosmetic and not modelled.
- Logging (`write_to_log`, `print`) and the `output_prefix` indentation that is only used in log lines are left out.
- `quit(n)` is the `Exit(n)` result rather than a process exit.
- Python's recursion limit is the `fuel` bound, so a reference cycle ends in `RecursionLimit` after `fuel` nested documents rather than after the interpreter's frame count.
- The inner dictionaries and lists of `tc_dict` are values inside the `classes` field, not separate objects. Nothing else in the script holds a reference to them, so aliasing does not arise.
- `verify_args` truncates the output file when it probes it. That side effect on the file system is not modelled.
- The walk methods receive the selection (`collect_all_test_cases`, `list_of_tests`) as parameters. The script reads the same unchanged globals in `look_for_tests_in_xml` and passes them on.
- Collector.Run.LookForTests: on an error the contract does not say which matches were recorded before it, only that the dictionary is still consistent. The script ends with the exception at that point and writes nothing.
- Collector.Run.LookForTestsInXml: on an error, the matches recorded before it are not stated, for the same reason.
- Collector.Run.CollectNodes: on an error, the matches recorded before it are not stated, for the same reason.
- Collector.Run.LookForTestsInNode: on an error, the matches recorded before it are not stated, for the same reason.
- Collector.Run.CollectSuiteFiles: on an error, the matches recorded before it are not stated, for the same reason.
- Collector.Run.CollectClasses: on an error, the matches recorded before it are not stated, for the same reason.
- Collector.Run.CollectIncludes: on an error, the matches recorded before it are not stated, for the same reason.
