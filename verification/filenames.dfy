/** `sanitizeFileName` and the output path built from it. */
module FileNames {

  /** The working directory every file is written to. */
  const TempDir: string := "tmp"

  /** A character of the class `[<>:"/\\|?*]`. */
  predicate IsReserved(c: char) {
    c == '<' || c == '>' || c == ':' || c == '"' || c == '/' || c == '\\'
    || c == '|' || c == '?' || c == '*'
  }

  /** Every reserved character becomes `_`; everything else is copied. */
  function Sanitize(name: string): (r: string)
    ensures |r| == |name|
    ensures forall i :: 0 <= i < |name| && !IsReserved(name[i]) ==> r[i] == name[i]
    ensures forall i :: 0 <= i < |name| && IsReserved(name[i]) ==> r[i] == '_'
    ensures forall i :: 0 <= i < |r| ==> !IsReserved(r[i])
    decreases |name|
  {
    if |name| == 0 then ""
    else (if IsReserved(name[0]) then "_" else [name[0]]) + Sanitize(name[1..])
  }

  /** Sanitizing twice changes nothing more. */
  lemma SanitizeIdempotent(name: string)
    ensures Sanitize(Sanitize(name)) == Sanitize(name)
  {
    var once := Sanitize(name);
    var twice := Sanitize(once);
    assert forall i :: 0 <= i < |twice| ==> twice[i] == once[i];
  }

  /** A name with no reserved character is kept exactly. */
  lemma SanitizeKeepsClean(name: string)
    requires forall i :: 0 <= i < |name| ==> !IsReserved(name[i])
    ensures Sanitize(name) == name
  {
  }

  /** `filepath.Join(tempDir, sanitizeFileName(title) + ".mp3")`. The joined element holds
      no separator and ends in `.mp3`, so it is never `.` or `..` and cleaning the path
      leaves the plain concatenation. */
  function OutputPath(title: string): string {
    TempDir + "/" + Sanitize(title) + ".mp3"
  }

  /** The output path stays directly inside the working directory: its only separator is
      the one after `tmp`, it ends in `.mp3`, and its file name is the sanitized title. */
  lemma OutputPathInTempDir(title: string)
    ensures var p := OutputPath(title);
      && |p| == |title| + 8
      && p[..4] == "tmp/"
      && p[|p| - 4..] == ".mp3"
      && p[4..|p| - 4] == Sanitize(title)
      && forall i :: 0 <= i < |p| && p[i] == '/' ==> i == 3
  {
    var p := OutputPath(title);
    var s := Sanitize(title);
    assert p == "tmp/" + s + ".mp3";
    forall i | 0 <= i < |p| && p[i] == '/' ensures i == 3 {
    }
  }

  /** Two titles are written to the same file exactly when they sanitize to the same name,
      whatever else tells them apart. */
  lemma SharedOutputPath(a: string, b: string)
    ensures OutputPath(a) == OutputPath(b) <==> Sanitize(a) == Sanitize(b)
  {
    OutputPathInTempDir(a);
    OutputPathInTempDir(b);
  }

  /** Sanitizing is not injective: two different titles can share one output file. */
  lemma DistinctTitlesSharePath()
    ensures "a/b" != "a:b" && OutputPath("a/b") == OutputPath("a:b")
  {
    assert "a/b"[1] != "a:b"[1];
    assert Sanitize("a/b") == "a_b";
    assert Sanitize("a:b") == "a_b";
    SharedOutputPath("a/b", "a:b");
  }
}
