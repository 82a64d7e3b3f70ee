/** How the command line is read: the two paths, and which test cases are
    requested. */
module Args {

  const DEFAULT_XML_PATH := "global.xml"
  const DEFAULT_OUTPUT_NAME := "output.xml"

  /** Splitting on one separator character, as Python's `str.split(sep)`:
      every separator ends a piece, so the result is never empty and the
      empty string gives one empty piece. */
  function Split(s: string, sep: char): (pieces: seq<string>)
    ensures |pieces| >= 1
    ensures forall i :: 0 <= i < |pieces| ==> sep !in pieces[i]
    decreases |s|
  {
    if s == [] then [""]
    else
      var prior := Split(s[..|s| - 1], sep);
      var c := s[|s| - 1];
      if c == sep then prior + [""]
      else prior[..|prior| - 1] + [prior[|prior| - 1] + [c]]
  }

  /** The pieces written back with the separator between each two. */
  function Join(pieces: seq<string>, sep: char): string
    decreases |pieces|
  {
    if pieces == [] then ""
    else if |pieces| == 1 then pieces[0]
    else Join(pieces[..|pieces| - 1], sep) + [sep] + pieces[|pieces| - 1]
  }

  /** Splitting loses nothing: joining the pieces gives the argument back. */
  lemma {:induction false} JoinSplit(s: string, sep: char)
    ensures Join(Split(s, sep), sep) == s
    decreases |s|
  {
    if s != [] {
      var init := s[..|s| - 1];
      var c := s[|s| - 1];
      var prior := Split(init, sep);
      JoinSplit(init, sep);
      if c != sep && |prior| > 1 {
        var n := |prior|;
        var pieces := prior[..n - 1] + [prior[n - 1] + [c]];
        assert pieces[..n - 1] == prior[..n - 1];
        assert prior[..n - 1] == prior[..|prior| - 1];
      }
      assert s == init + [c];
    }
  }

  /** A piece without the separator splits into itself. */
  lemma {:induction false} SplitPlain(q: string, sep: char)
    requires sep !in q
    ensures Split(q, sep) == [q]
    decreases |q|
  {
    if q != [] {
      SplitPlain(q[..|q| - 1], sep);
      assert q[..|q| - 1] + [q[|q| - 1]] == q;
    }
  }

  /** A separator followed by a plain piece adds exactly that piece. */
  lemma {:induction false} SplitAfterSeparator(a: string, q: string, sep: char)
    requires sep !in q
    ensures Split(a + [sep] + q, sep) == Split(a, sep) + [q]
    decreases |q|
  {
    var s := a + [sep] + q;
    if q == [] {
      assert s[..|s| - 1] == a;
    } else {
      var q' := q[..|q| - 1];
      SplitAfterSeparator(a, q', sep);
      assert s[..|s| - 1] == a + [sep] + q';
      assert q' + [q[|q| - 1]] == q;
    }
  }

  /** Splitting undoes joining, for a non-empty list of pieces none of which
      holds the separator. */
  lemma {:induction false} SplitJoin(pieces: seq<string>, sep: char)
    requires |pieces| >= 1
    requires forall i :: 0 <= i < |pieces| ==> sep !in pieces[i]
    ensures Split(Join(pieces, sep), sep) == pieces
    decreases |pieces|
  {
    if |pieces| == 1 {
      SplitPlain(pieces[0], sep);
    } else {
      var init := pieces[..|pieces| - 1];
      SplitJoin(init, sep);
      SplitAfterSeparator(Join(init, sep), pieces[|pieces| - 1], sep);
      assert init + [pieces[|pieces| - 1]] == pieces;
    }
  }

  /** `argv[1]`, the root descriptor, or its default. */
  function XmlPathArg(argv: seq<string>): string {
    if |argv| > 1 then argv[1] else DEFAULT_XML_PATH
  }

  /** `argv[2]`, the output file, or its default. */
  function OutputArg(argv: seq<string>): string {
    if |argv| > 2 then argv[2] else DEFAULT_OUTPUT_NAME
  }

  /** The third argument `*` or `__all` asks for every test case. */
  predicate CollectAllArg(argv: seq<string>) {
    |argv| > 3 && (argv[3] == "*" || argv[3] == "__all")
  }

  /** Any other third argument is the list of requested names, split on
      commas with nothing trimmed; without one the list stays empty. */
  function TestListArg(argv: seq<string>): seq<string> {
    if |argv| > 3 && !CollectAllArg(argv) then Split(argv[3], ',') else []
  }

  /** The selection test applied to every `include` leaf: exact,
      case-sensitive membership of its name, unless everything is wanted. */
  predicate Selected(name: string, collectAll: bool, requested: seq<string>) {
    collectAll || name in requested
  }

  /** The empty-selection condition holds exactly when the third argument is
      absent: a present argument never splits into an empty list. */
  lemma EmptySelectionIffNoArgument(argv: seq<string>)
    ensures (!CollectAllArg(argv) && |TestListArg(argv)| == 0) <==> |argv| <= 3
  {
  }

  /** With a list argument, the requested names are exactly the pieces whose
      comma-join is the argument. */
  lemma RequestedNamesRebuildArgument(argv: seq<string>)
    requires |argv| > 3 && !CollectAllArg(argv)
    ensures Join(TestListArg(argv), ',') == argv[3]
    ensures forall i :: 0 <= i < |TestListArg(argv)| ==> ',' !in TestListArg(argv)[i]
  {
    JoinSplit(argv[3], ',');
  }
}
