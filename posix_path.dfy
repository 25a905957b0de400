/** The POSIX flavour of Node's `path` functions that the server applies to a
    document path: `dirname`, `basename`, `extname` and `resolve`.
    Strings are sequences of characters; '/' is the only separator. */
module PosixPath {

  predicate IsAbsolute(p: string)
  {
    |p| > 0 && p[0] == '/'
  }

  /** The largest index at or above `lo` holding `c`, or -1 when there is none. */
  function LastIndexOf(s: string, c: char, lo: nat): (i: int)
    ensures -1 <= i < |s|
    ensures i >= 0 ==> lo <= i && s[i] == c
    ensures forall j :: lo <= j < |s| && i < j ==> s[j] != c
  {
    if |s| <= lo then -1
    else if s[|s| - 1] == c then |s| - 1
    else LastIndexOf(s[..|s| - 1], c, lo)
  }

  /** Drops trailing '/' characters but never shortens `s` below `keep` characters. */
  function TrimTrailingSlashes(s: string, keep: nat): (t: string)
    ensures t <= s
    ensures |t| >= keep || t == s
    ensures forall j :: |t| <= j < |s| ==> s[j] == '/'
    ensures |t| > keep ==> t[|t| - 1] != '/'
  {
    if |s| > keep && s[|s| - 1] == '/' then TrimTrailingSlashes(s[..|s| - 1], keep) else s
  }

  /** `path.posix.dirname`: everything before the last segment, ignoring
      trailing separators; "." for a relative single segment, "/" for the root.
      Node keeps a leading "//" when the last separator is the second character. */
  function Dirname(p: string): (d: string)
    ensures d != []
    ensures d == "." || d == "/" || d == "//" || d < p
  {
    if p == [] then "."
    else
      var end := LastIndexOf(TrimTrailingSlashes(p, 1), '/', 1);
      if end == -1 then (if p[0] == '/' then "/" else ".")
      else if p[0] == '/' && end == 1 then "//"
      else p[..end]
  }

  /** `path.posix.basename` without a suffix: the last segment, ignoring
      trailing separators; empty when the path is empty or only separators. */
  function Basename(p: string): (b: string)
    ensures NoSlash(b)
    ensures |b| <= |p|
    ensures var t := TrimTrailingSlashes(p, 0);
      && |b| <= |t| && t[|t| - |b|..] == b
      && (|b| < |t| ==> t[|t| - |b| - 1] == '/')
  {
    var t := TrimTrailingSlashes(p, 0);
    t[LastIndexOf(t, '/', 0) + 1..]
  }

  /** `path.posix.extname`: from the last '.' of the last segment to its end,
      unless that '.' opens the segment or the segment is "..". */
  function Extname(p: string): (e: string)
    ensures var b := Basename(p);
      && (|e| < |b| || e == [])
      && e == b[|b| - |e|..]
      && (e != [] ==> e[0] == '.' && forall j :: 1 <= j < |e| ==> e[j] != '.')
      && (e == [] <==> b == ".." || forall j :: 1 <= j < |b| ==> b[j] != '.')
  {
    var b := Basename(p);
    var dot := LastIndexOf(b, '.', 0);
    if dot <= 0 || b == ".." then [] else b[dot..]
  }

  /** `path.posix.basename(p, path.posix.extname(p))`: the last segment with its
      extension removed. The extension is always a proper suffix of the segment
      (or empty), so Node's suffix matching removes exactly it. */
  function Stem(p: string): (s: string)
    ensures s + Extname(p) == Basename(p)
    ensures Basename(p) != [] ==> s != []
    ensures NoSlash(s)
  {
    var b := Basename(p);
    var e := Extname(p);
    SuffixSplit(b, e);
    b[..|b| - |e|]
  }

  /** Cutting a suffix off a separator-free string leaves a separator-free
      prefix that the suffix completes. */
  lemma SuffixSplit(b: string, e: string)
    requires NoSlash(b) && |e| <= |b| && e == b[|b| - |e|..]
    ensures b[..|b| - |e|] + e == b
    ensures NoSlash(b[..|b| - |e|])
  {
    assert b[..|b| - |e|] + b[|b| - |e|..] == b;
  }

  // ---- Segments, normalisation and resolve ----

  predicate NoSlash(s: string)
  {
    forall j :: 0 <= j < |s| ==> s[j] != '/'
  }

  /** `s.split('/')`. */
  function Split(s: string): (parts: seq<string>)
    ensures |parts| >= 1
    ensures forall k :: 0 <= k < |parts| ==> NoSlash(parts[k])
  {
    var i := LastIndexOf(s, '/', 0);
    if i < 0 then [s]
    else Split(s[..i]) + [s[i + 1..]]
  }

  /** `parts.join('/')`. */
  function Join(parts: seq<string>): string
  {
    if parts == [] then ""
    else if |parts| == 1 then parts[0]
    else Join(parts[..|parts| - 1]) + "/" + parts[|parts| - 1]
  }

  /** A segment that normalisation does not drop or interpret. */
  predicate Kept(seg: string)
  {
    seg != "" && seg != "." && seg != ".."
  }

  /** A segment that normalisation keeps as it is. */
  predicate Plain(seg: string)
  {
    Kept(seg) && NoSlash(seg)
  }

  /** The segment stack of Node's `normalizeString` for an absolute path:
      empty segments and "." are skipped, ".." pops (and is dropped at the root). */
  function Normalize(parts: seq<string>): (r: seq<string>)
    ensures |r| <= |parts|
    ensures forall k :: 0 <= k < |r| ==> Kept(r[k]) && r[k] in parts
  {
    if parts == [] then []
    else
      var init := parts[..|parts| - 1];
      var st := Normalize(init);
      var seg := parts[|parts| - 1];
      assert forall x :: x in init ==> x in parts;
      if seg == "" || seg == "." then st
      else if seg == ".." then (if st == [] then [] else st[..|st| - 1])
      else st + [seg]
  }

  /** `path.posix.resolve(dir, name)`: the arguments are joined right to left
      until one is absolute, the working directory `cwd` is put in front when none
      is, and the result is normalised. `cwd` stands for `process.cwd()`, which
      is always absolute. */
  function Resolve(cwd: string, dir: string, name: string): (r: string)
    requires IsAbsolute(cwd)
    ensures IsAbsolute(r)
  {
    "/" + Join(Normalize(Split(Joined(cwd, dir, name))))
  }

  /** The string that `resolve` normalises. */
  function Joined(cwd: string, dir: string, name: string): string
  {
    if IsAbsolute(name) then name
    else if IsAbsolute(dir) then dir + "/" + name
    else cwd + "/" + dir + "/" + name
  }

  // ---- Lemmas ----

  /** A path in normal form: absolute, not the root, every segment kept as is. */
  predicate NormalAbsolute(d: string)
  {
    IsAbsolute(d) && forall k :: 1 <= k < |Split(d)| ==> Plain(Split(d)[k])
  }

  /** The last `c` is the one followed only by other characters. */
  lemma {:induction false} LastIndexOfAfter(a: string, c: char, b: string)
    requires forall j :: 0 <= j < |b| ==> b[j] != c
    ensures LastIndexOf(a + [c] + b, c, 0) == |a|
  {
    var s := a + [c] + b;
    if b != [] {
      assert s[..|s| - 1] == a + [c] + b[..|b| - 1];
      LastIndexOfAfter(a, c, b[..|b| - 1]);
    }
  }

  /** Appending "/b" appends the segment `b`. */
  lemma {:induction false} SplitAppend(a: string, b: string)
    requires NoSlash(b)
    ensures Split(a + "/" + b) == Split(a) + [b]
  {
    var s := a + "/" + b;
    LastIndexOfAfter(a, '/', b);
    assert s[..|a|] == a;
    assert s[|a| + 1..] == b;
  }

  /** An absolute path's first segment is empty. */
  lemma {:induction false} SplitOfAbsolute(s: string)
    requires IsAbsolute(s)
    ensures Split(s)[0] == ""
  {
    var i := LastIndexOf(s, '/', 0);
    assert i >= 0;
    if i > 0 {
      SplitOfAbsolute(s[..i]);
    } else {
      assert s[..i] == "";
      assert LastIndexOf("", '/', 0) == -1;
    }
  }

  /** Joining the segments of a path gives the path back. */
  lemma {:induction false} JoinSplit(s: string)
    ensures Join(Split(s)) == s
    decreases |s|
  {
    var i := LastIndexOf(s, '/', 0);
    if i >= 0 {
      var parts := Split(s);
      assert parts[..|parts| - 1] == Split(s[..i]);
      JoinSplit(s[..i]);
      assert s == s[..i] + "/" + s[i + 1..];
    }
  }

  /** Splitting a join of separator-free segments gives the segments back. */
  lemma {:induction false} SplitJoin(parts: seq<string>)
    requires |parts| >= 1
    requires forall k :: 0 <= k < |parts| ==> NoSlash(parts[k])
    ensures Split(Join(parts)) == parts
  {
    if |parts| == 1 {
      assert LastIndexOf(parts[0], '/', 0) == -1;
    } else {
      var init := parts[..|parts| - 1];
      SplitJoin(init);
      SplitAppend(Join(init), parts[|parts| - 1]);
      assert init + [parts[|parts| - 1]] == parts;
    }
  }

  /** Join seen from the front. */
  lemma {:induction false} JoinCons(x: string, rest: seq<string>)
    requires rest != []
    ensures Join([x] + rest) == x + "/" + Join(rest)
  {
    if |rest| > 1 {
      var init := rest[..|rest| - 1];
      JoinCons(x, init);
      assert ([x] + rest)[..|rest|] == [x] + init;
    }
  }

  /** Normalisation leaves segments it keeps alone. */
  lemma {:induction false} NormalizeKept(parts: seq<string>)
    requires forall k :: 0 <= k < |parts| ==> Kept(parts[k])
    ensures Normalize(parts) == parts
  {
    if parts != [] {
      NormalizeKept(parts[..|parts| - 1]);
    }
  }

  /** The empty segment in front of an absolute path is skipped. */
  lemma {:induction false} NormalizeRooted(parts: seq<string>)
    requires forall k :: 0 <= k < |parts| ==> Kept(parts[k])
    ensures Normalize([""] + parts) == parts
  {
    if parts == [] {
      assert Normalize([""]) == Normalize([]);
    } else {
      var init := parts[..|parts| - 1];
      NormalizeRooted(init);
      assert ([""] + parts)[..|parts|] == [""] + init;
    }
  }

  /** The root's one segment after the leading separator is empty. */
  lemma RootIsNotNormal()
    ensures !NormalAbsolute("/")
  {
    assert LastIndexOf("/", '/', 0) == 0;
    assert LastIndexOf("", '/', 0) == -1;
    assert Split("/") == [""] + [""];
    assert Split("/")[1] == "" && !Plain("");
  }

  /** A plain last segment is pushed onto the stack. */
  lemma NormalizeAppendPlain(parts: seq<string>, name: string)
    requires Plain(name)
    ensures Normalize(parts + [name]) == Normalize(parts) + [name]
  {
    assert (parts + [name])[..|parts|] == parts;
  }

  /** Segments that came out of normalising separator-free segments are plain. */
  lemma NormalizedArePlain(parts: seq<string>)
    requires forall k :: 0 <= k < |parts| ==> NoSlash(parts[k])
    ensures forall k :: 0 <= k < |Normalize(parts)| ==> Plain(Normalize(parts)[k])
  {
    var segs := Normalize(parts);
    forall k | 0 <= k < |segs| ensures Plain(segs[k]) {
      var i :| 0 <= i < |parts| && parts[i] == segs[k];
    }
  }

  /** "/" followed by plain segments is in normal form. */
  lemma RootedJoinIsNormal(segs: seq<string>)
    requires segs != []
    requires forall k :: 0 <= k < |segs| ==> Plain(segs[k])
    ensures NormalAbsolute("/" + Join(segs))
  {
    PlainAfterRoot(segs);
    SplitRooted(segs);
    NormalFromSegments("/" + Join(segs), [""] + segs);
  }

  /** Putting the root's empty segment in front keeps the others plain. */
  lemma PlainAfterRoot(segs: seq<string>)
    requires forall k :: 0 <= k < |segs| ==> Plain(segs[k])
    ensures forall k :: 1 <= k < |[""] + segs| ==> Plain(([""] + segs)[k])
  {
    var all := [""] + segs;
    forall k | 1 <= k < |all| ensures Plain(all[k]) {
      assert all[k] == segs[k - 1];
    }
  }

  /** Putting the root's empty segment in front keeps every segment separator-free. */
  lemma NoSlashAfterRoot(segs: seq<string>)
    requires forall k :: 0 <= k < |segs| ==> NoSlash(segs[k])
    ensures forall k :: 0 <= k < |[""] + segs| ==> NoSlash(([""] + segs)[k])
  {
    var all := [""] + segs;
    forall k | 0 <= k < |all| ensures NoSlash(all[k]) {
      if k > 0 {
        assert all[k] == segs[k - 1];
      }
    }
  }

  /** A path is in normal form when it is absolute and its segments after the first are plain. */
  lemma NormalFromSegments(d: string, parts: seq<string>)
    requires IsAbsolute(d) && Split(d) == parts
    requires forall k :: 1 <= k < |parts| ==> Plain(parts[k])
    ensures NormalAbsolute(d)
  {
  }

  /** The segments of "/" followed by separator-free segments: an empty one, then those. */
  lemma SplitRooted(segs: seq<string>)
    requires segs != []
    requires forall k :: 0 <= k < |segs| ==> NoSlash(segs[k])
    ensures Split("/" + Join(segs)) == [""] + segs
  {
    NoSlashAfterRoot(segs);
    SplitJoin([""] + segs);
    JoinRooted(segs);
  }

  /** Joining behind an empty first segment puts a "/" in front. */
  lemma JoinRooted(segs: seq<string>)
    requires segs != []
    ensures Join([""] + segs) == "/" + Join(segs)
  {
    JoinCons("", segs);
    assert "" + "/" + Join(segs) == "/" + Join(segs);
  }

  /** A ".." right after a plain segment cancels it. */
  lemma NormalizeParentPops(parts: seq<string>, x: string)
    requires Plain(x)
    ensures Normalize(parts + [x, ".."]) == Normalize(parts)
  {
    assert (parts + [x, ".."])[..|parts| + 1] == parts + [x];
    assert (parts + [x])[..|parts|] == parts;
  }

  /** A ".." at the root is dropped: "/.." normalises to the root. */
  lemma NormalizeParentAtRoot()
    ensures Normalize(["", ".."]) == []
  {
    assert ["", ".."][..1] == [""];
    assert [""][..0] == [];
  }

  /** Whatever the arguments, `resolve` yields the root or a path in normal form. */
  lemma ResolveIsNormal(cwd: string, dir: string, name: string)
    requires IsAbsolute(cwd)
    ensures var r := Resolve(cwd, dir, name); r == "/" || NormalAbsolute(r)
  {
    var parts := Split(Joined(cwd, dir, name));
    var segs := Normalize(parts);
    assert Resolve(cwd, dir, name) == "/" + Join(segs);
    if segs != [] {
      NormalizedArePlain(parts);
      RootedJoinIsNormal(segs);
    }
  }

  /** A path in normal form is "/" followed by its kept segments. */
  lemma NormalAbsoluteSegments(dir: string) returns (rest: seq<string>)
    requires NormalAbsolute(dir)
    ensures Split(dir) == [""] + rest
    ensures rest != [] && forall k :: 0 <= k < |rest| ==> Kept(rest[k])
    ensures dir == "/" + Join(rest)
  {
    var parts := Split(dir);
    rest := parts[1..];
    SplitOfAbsolute(dir);
    assert parts == [""] + rest;
    forall k | 0 <= k < |rest| ensures Kept(rest[k]) {
      assert rest[k] == parts[k + 1];
    }
    JoinSplit(dir);
    JoinCons("", rest);
  }

  /** Resolving a plain file name against a directory already in normal form
      just appends it after one separator. */
  lemma ResolveInNormalDirectory(cwd: string, dir: string, name: string)
    requires IsAbsolute(cwd) && NormalAbsolute(dir) && Plain(name)
    ensures Resolve(cwd, dir, name) == dir + "/" + name
  {
    var rest := NormalizeAppended(dir, name);
    assert !IsAbsolute(name);
    assert Joined(cwd, dir, name) == dir + "/" + name;
    assert Resolve(cwd, dir, name) == "/" + Join(rest + [name]);
    JoinSnoc(rest, name);
    var j := Join(rest);
    Associative("/", j + "/", name);
    Associative("/", j, "/");
  }

  /** Regrouping a concatenation of three strings. */
  lemma Associative(a: string, b: string, c: string)
    ensures a + (b + c) == (a + b) + c
  {
  }

  /** Join seen from the back, for any last segment. */
  lemma JoinSnoc(rest: seq<string>, x: string)
    requires rest != []
    ensures Join(rest + [x]) == Join(rest) + "/" + x
  {
    assert (rest + [x])[..|rest|] == rest;
  }

  /** The segments `resolve` keeps for a plain name in a normal directory. */
  lemma NormalizeAppended(dir: string, name: string) returns (rest: seq<string>)
    requires NormalAbsolute(dir) && Plain(name)
    ensures Normalize(Split(dir + "/" + name)) == rest + [name]
    ensures rest != [] && dir == "/" + Join(rest)
  {
    rest := NormalAbsoluteSegments(dir);
    var parts := Split(dir);
    SplitAppend(dir, name);
    NormalizeAppendPlain(parts, name);
    NormalizeRooted(rest);
  }

  /** Resolving a plain file name against the root gives "/name". */
  lemma ResolveInRoot(cwd: string, name: string)
    requires IsAbsolute(cwd) && Plain(name)
    ensures Resolve(cwd, "/", name) == "/" + name
  {
    assert LastIndexOf("/", '/', 0) == 0;
    assert LastIndexOf("", '/', 0) == -1;
    assert Split("/") == [""] + [""];
    SplitAppend("/", name);
    assert Split(Joined(cwd, "/", name)) == ["", ""] + [name];
    assert Normalize(["", ""]) == [] by {
      assert ["", ""][..1] == [""];
      assert [""][..0] == [];
    }
    NormalizeAppendPlain(["", ""], name);
  }

  /** The last segment and everything before it, put back together, give the
      path again (for a path with at least two segments). */
  lemma DirnameBasenameSplit(d: string, b: string)
    requires d != "" && d != "/"
    requires b != [] && NoSlash(b)
    ensures Dirname(d + "/" + b) == d
    ensures Basename(d + "/" + b) == b
  {
    var p := d + "/" + b;
    assert TrimTrailingSlashes(p, 1) == p;
    assert TrimTrailingSlashes(p, 0) == p;
    LastIndexOfAfter(d, '/', b);
    assert p[|d| + 1..] == b;
  }

  /** A single segment under the root: dirname is the root itself. */
  lemma DirnameBasenameRoot(b: string)
    requires b != [] && NoSlash(b)
    ensures Dirname("/" + b) == "/"
    ensures Basename("/" + b) == b
  {
    var p := "/" + b;
    assert TrimTrailingSlashes(p, 1) == p;
    assert TrimTrailingSlashes(p, 0) == p;
    LastIndexOfAfter("", '/', b);
    assert p[1..] == b;
  }
}
