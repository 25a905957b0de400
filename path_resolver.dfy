/** Turning a saved document's URI into the scanner's input path and the path
    of the results file it writes next to the document. */
module PathResolver {
  import opened PosixPath

  /** What is appended to the document's base name to name the results file. */
  const ResultsFile := "-electron-results.json"

  /** The value `os.platform()` reports on Windows. */
  const Win32 := "win32"

  /** How many slashes the start-anchored pattern `^file?:` is followed by:
      three on Windows (leaving a drive-letter path), two elsewhere (leaving the
      path's own leading slash). */
  function SchemeSlashes(platform: string): nat
  {
    if platform == Win32 then 3 else 2
  }

  function Slashes(n: nat): (s: string)
    ensures |s| == n && forall j :: 0 <= j < n ==> s[j] == '/'
  {
    if n == 0 then "" else Slashes(n - 1) + "/"
  }

  /** The two strings the pattern `^file?:` plus slashes matches: the `e` is
      optional, so both "file:" and "fil:" are accepted. */
  function LongScheme(platform: string): string
  {
    "file:" + Slashes(SchemeSlashes(platform))
  }

  function ShortScheme(platform: string): string
  {
    "fil:" + Slashes(SchemeSlashes(platform))
  }

  /** The `replace` of the decoded URI with the platform's pattern: a match at
      position 0 is removed, anything else is left as it is. */
  function StripFileScheme(uri: string, platform: string): (path: string)
    ensures LongScheme(platform) <= uri ==> uri == LongScheme(platform) + path
    ensures ShortScheme(platform) <= uri ==> uri == ShortScheme(platform) + path
    ensures !(LongScheme(platform) <= uri) && !(ShortScheme(platform) <= uri) ==> path == uri
  {
    var long := LongScheme(platform);
    var short := ShortScheme(platform);
    assert long[3] != short[3];
    if long <= uri then uri[|long|..]
    else if short <= uri then uri[|short|..]
    else uri
  }

  /** The results file: `path.resolve(dirname(input), basename(input, extname(input)) + ResultsFile)`,
      where `cwd` stands for the server's working directory. */
  function OutputFilePath(cwd: string, input: string): (out: string)
    requires IsAbsolute(cwd)
    ensures IsAbsolute(out)
  {
    Resolve(cwd, Dirname(input), Stem(input) + ResultsFile)
  }

  // ---- Lemmas ----

  /** Outside Windows the URI "file:///p" becomes "/p": the third slash stays. */
  lemma PosixKeepsLeadingSlash(platform: string, p: string)
    requires platform != Win32
    ensures StripFileScheme("file:///" + p, platform) == "/" + p
    ensures StripFileScheme("fil:///" + p, platform) == "/" + p
  {
    assert LongScheme(platform) == "file://";
    assert ShortScheme(platform) == "fil://";
    assert "file:///" + p == LongScheme(platform) + ("/" + p);
    assert "fil:///" + p == ShortScheme(platform) + ("/" + p);
  }

  /** On Windows the URI "file:///C:/p" becomes "C:/p": all three slashes go. */
  lemma Win32DropsThreeSlashes(p: string)
    ensures StripFileScheme("file:///" + p, Win32) == p
    ensures StripFileScheme("fil:///" + p, Win32) == p
  {
    assert LongScheme(Win32) == "file:///";
    assert ShortScheme(Win32) == "fil:///";
  }

  /** A string that does not start with the scheme is returned unchanged, even
      when the scheme occurs later in it. */
  lemma NoSchemeNoChange(platform: string, a: string, b: string)
    requires a != [] && a[0] != 'f'
    ensures StripFileScheme(a + LongScheme(platform) + b, platform) == a + LongScheme(platform) + b
  {
    var u := a + LongScheme(platform) + b;
    assert u[0] == a[0];
    assert LongScheme(platform)[0] == 'f' && ShortScheme(platform)[0] == 'f';
  }

  /** Two separator-free strings make a separator-free string. */
  lemma NoSlashConcat(a: string, b: string)
    requires NoSlash(a) && NoSlash(b)
    ensures NoSlash(a + b)
  {
    forall j | 0 <= j < |a + b| ensures (a + b)[j] != '/' {
      if j >= |a| {
        assert (a + b)[j] == b[j - |a|];
      }
    }
  }

  /** The name of the results file is a single plain segment. */
  lemma ResultsNameIsPlain(input: string)
    ensures Plain(Stem(input) + ResultsFile)
  {
    assert '/' !in ResultsFile;
    assert NoSlash(ResultsFile) by {
      forall j | 0 <= j < |ResultsFile| ensures ResultsFile[j] != '/' {
        assert ResultsFile[j] in ResultsFile;
      }
    }
    NoSlashConcat(Stem(input), ResultsFile);
  }

  /** When dirname is in normal form, the results file is placed in it. */
  lemma OutputInDirectory(cwd: string, input: string)
    requires IsAbsolute(cwd) && NormalAbsolute(Dirname(input))
    ensures OutputFilePath(cwd, input) == Dirname(input) + "/" + (Stem(input) + ResultsFile)
  {
    ResultsNameIsPlain(input);
    ResolveInNormalDirectory(cwd, Dirname(input), Stem(input) + ResultsFile);
  }

  /** When dirname is the root, the results file is placed directly under it. */
  lemma OutputInRoot(cwd: string, input: string)
    requires IsAbsolute(cwd) && Dirname(input) == "/"
    ensures OutputFilePath(cwd, input) == "/" + (Stem(input) + ResultsFile)
  {
    ResultsNameIsPlain(input);
    ResolveInRoot(cwd, Stem(input) + ResultsFile);
  }

  /** For a file in a directory in normal form, the results file sits in that
      same directory, named after the file without its extension. */
  lemma OutputNextToInput(cwd: string, dir: string, file: string)
    requires IsAbsolute(cwd) && NormalAbsolute(dir)
    requires file != [] && NoSlash(file)
    ensures var input := dir + "/" + file;
      && Stem(input) + Extname(input) == file
      && OutputFilePath(cwd, input) == dir + "/" + Stem(input) + ResultsFile
  {
    var input := dir + "/" + file;
    RootIsNotNormal();
    DirnameBasenameSplit(dir, file);
    OutputInDirectory(cwd, input);
    Associative(dir + "/", Stem(input), ResultsFile);
  }

  /** For a file directly under the root, the results file is "/" + stem + suffix. */
  lemma OutputNextToInputAtRoot(cwd: string, file: string)
    requires IsAbsolute(cwd)
    requires file != [] && NoSlash(file)
    ensures var input := "/" + file;
      && Stem(input) + Extname(input) == file
      && OutputFilePath(cwd, input) == "/" + Stem(input) + ResultsFile
  {
    var input := "/" + file;
    DirnameBasenameRoot(file);
    OutputInRoot(cwd, input);
    Associative("/", Stem(input), ResultsFile);
  }

  /** The document "file:///Users/a/b.js" on macOS: the scanner reads
      "/Users/a/b.js" and writes "/Users/a/b-electron-results.json". */
  lemma ExampleDocumentOnMacOs(cwd: string)
    requires IsAbsolute(cwd)
    ensures StripFileScheme("file:///Users/a/b.js", "darwin") == "/Users/a/b.js"
    ensures OutputFilePath(cwd, "/Users/a/b.js") == "/Users/a/b-electron-results.json"
  {
    PosixKeepsLeadingSlash("darwin", "Users/a/b.js");
    ExampleDirectoryIsNormal();
    assert NoSlash("b.js");
    OutputNextToInput(cwd, "/Users/a", "b.js");
    ExampleStem();
    ExampleUriLiterals();
    ExampleOutputLiteral();
  }

  /** The string identities the example relies on. */
  lemma ExampleUriLiterals()
    ensures "file:///" + "Users/a/b.js" == "file:///Users/a/b.js"
    ensures "/" + "Users/a/b.js" == "/Users/a/b.js"
    ensures "/Users/a" + "/" + "b.js" == "/Users/a/b.js"
  {
  }

  lemma ExampleOutputLiteral()
    ensures "/Users/a" + "/" + "b" + ResultsFile == "/Users/a/b-electron-results.json"
  {
  }

  /** "/Users/a" is in normal form. */
  lemma ExampleDirectoryIsNormal()
    ensures NormalAbsolute("/Users/a")
  {
    var segs := ["Users", "a"];
    assert NoSlash(segs[0]) && NoSlash(segs[1]);
    assert forall k :: 0 <= k < |segs| ==> Plain(segs[k]) by {
      forall k | 0 <= k < |segs| ensures Plain(segs[k]) {
        assert k == 0 || k == 1;
      }
    }
    RootedJoinIsNormal(segs);
    ExampleDirectoryJoin();
  }

  lemma ExampleDirectoryJoin()
    ensures "/" + Join(["Users", "a"]) == "/Users/a"
  {
    assert Join(["Users", "a"]) == "Users/a";
  }

  /** The extension and stem of "/Users/a/b.js". */
  lemma ExampleStem()
    ensures Extname("/Users/a/b.js") == ".js"
    ensures Stem("/Users/a/b.js") == "b"
  {
    assert NoSlash("b.js");
    DirnameBasenameSplit("/Users/a", "b.js");
    assert "/Users/a" + "/" + "b.js" == "/Users/a/b.js";
    assert LastIndexOf("b.js", '.', 0) == 1;
  }
}
