/**
 * The upload filter: a file name is accepted when the text after its last
 * '.' is "csv" or "json", ignoring case.
 */
module Upload {
  import opened Wrappers

  /** The accepted extensions, in lower case. */
  const Extensions: set<string> := {"csv", "json"}

  /** Position of the last '.' in `s`, as `rsplit('.', 1)` splits there. */
  function LastDot(s: string): (r: Option<nat>)
    ensures r.None? ==> '.' !in s
    ensures r.Some? ==> r.value < |s| && s[r.value] == '.' && '.' !in s[r.value + 1..]
  {
    if s == [] then None
    else if s[|s| - 1] == '.' then Some(|s| - 1)
    else
      var r := LastDot(s[..|s| - 1]);
      assert r.Some? ==> s[r.value + 1..] == s[..|s| - 1][r.value + 1..] + [s[|s| - 1]];
      r
  }

  /** Lower-case one character (ASCII letters; see README on other scripts). */
  function LowerChar(c: char): char
  {
    if 'A' <= c <= 'Z' then (c as int + 32) as char else c
  }

  function Lower(s: string): (r: string)
    ensures |r| == |s|
  {
    seq(|s|, i requires 0 <= i < |s| => LowerChar(s[i]))
  }

  /** `allowed_file`: some '.' is present and the text after the last one is an accepted extension. */
  predicate AllowedFile(filename: string)
  {
    match LastDot(filename)
    case None => false
    case Some(i) => Lower(filename[i + 1..]) in Extensions
  }

  /** The acceptance rule stated without `LastDot`: an extension is the text after a '.' that has no '.' after it. */
  lemma AllowedFileIff(f: string)
    ensures AllowedFile(f) <==>
      exists i :: 0 <= i < |f| && f[i] == '.' && '.' !in f[i + 1..] && Lower(f[i + 1..]) in Extensions
  {
    var r := LastDot(f);
    if r.Some? {
      forall i | 0 <= i < |f| && f[i] == '.' && '.' !in f[i + 1..]
        ensures i == r.value
      {
      }
    }
  }

  /** A name `stem.ext` whose `ext` has no '.' is accepted exactly when `ext`, in lower case, is csv or json. */
  lemma AllowedExtension(stem: string, ext: string)
    requires '.' !in ext
    ensures AllowedFile(stem + "." + ext) <==> Lower(ext) in Extensions
  {
    var f := stem + "." + ext;
    assert f[|stem|] == '.';
    assert f[|stem| + 1..] == ext;
    AllowedFileIff(f);
  }

  /** Upper-case extensions are accepted. */
  lemma AllowedUpperCase()
    ensures AllowedFile("a.CSV")
  {
    AllowedExtension("a", "CSV");
    assert Lower("CSV") == "csv";
  }

  /** Only the text after the last '.' decides. */
  lemma RejectedInnerExtension()
    ensures !AllowedFile("a.csv.txt")
  {
    AllowedExtension("a.csv", "txt");
    assert Lower("txt") == "txt";
    assert "a.csv" + "." + "txt" == "a.csv.txt";
  }

  /** A name without any '.' is rejected, even when it spells an extension. */
  lemma RejectedWithoutDot()
    ensures !AllowedFile("csv")
  {
  }
}
