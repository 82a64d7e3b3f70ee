/** Where a `suite-file` reference leads. */
module Paths {

  /** What the collector asks of the operating system to place a referenced
      file: its separator (`os.sep`), the absolute directory of a path
      (`os.path.dirname(os.path.abspath(p))`, which depends on the working
      directory) and `os.path.join`. The last two are left abstract. */
  datatype Host = Host(sep: char, absDir: string -> string, join: (string, string) -> string)

  /** Every occurrence of one character replaced by another, as Python's
      `str.replace` with one-character arguments. */
  function Replace(s: string, target: char, replacement: char): (r: string)
    ensures |r| == |s|
    ensures forall i :: 0 <= i < |s| ==> r[i] == (if s[i] == target then replacement else s[i])
    decreases |s|
  {
    if s == [] then []
    else
      var last := s[|s| - 1];
      Replace(s[..|s| - 1], target, replacement) + [if last == target then replacement else last]
  }

  /** A `suite-file` path with both `\` and `/` turned into the host
      separator: backslashes first, then slashes. */
  function NormalizeSeparators(p: string, sep: char): (r: string)
    ensures |r| == |p|
    ensures forall i :: 0 <= i < |p| ==> r[i] == (if p[i] == '\\' || p[i] == '/' then sep else p[i])
    ensures forall i :: 0 <= i < |r| && (r[i] == '\\' || r[i] == '/') ==> r[i] == sep
  {
    Replace(Replace(p, '\\', sep), '/', sep)
  }

  /** Normalising twice is normalising once. */
  lemma NormalizeIdempotent(p: string, sep: char)
    ensures NormalizeSeparators(NormalizeSeparators(p, sep), sep) == NormalizeSeparators(p, sep)
  {
  }

  /** The file a `suite-file` entry names: its normalised path joined to the
      directory of the document that holds the entry. */
  function SuiteFilePath(host: Host, referencingPath: string, relative: string): string {
    host.join(host.absDir(referencingPath), NormalizeSeparators(relative, host.sep))
  }
}
