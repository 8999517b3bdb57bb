/** Repo-relative paths: Go's `path` package and the two normalisers the fetch and the classifier use. */
module RepoPath {
  import opened Text

  /** Index of the last '/' of p, or -1. */
  function LastSlash(p: string): (i: int)
    ensures -1 <= i < |p|
    ensures i >= 0 ==> p[i] == '/'
    ensures forall j :: i < j < |p| ==> p[j] != '/'
  {
    if p == "" then -1
    else if p[|p| - 1] == '/' then |p| - 1
    else LastSlash(p[..|p| - 1])
  }

  /** One segment of `path.Clean`, over the segments kept so far. */
  function Push(out: seq<string>, seg: string, rooted: bool): seq<string> {
    if seg == "" || seg == "." then out
    else if seg != ".." then out + [seg]
    else if out != [] && out[|out| - 1] != ".." then out[..|out| - 1]
    else if rooted then out
    else out + [".."]
  }

  function PushAll(out: seq<string>, segs: seq<string>, rooted: bool): seq<string>
    decreases |segs|
  {
    if segs == [] then out else PushAll(Push(out, segs[0], rooted), segs[1..], rooted)
  }

  /** `path.Clean`. */
  function Clean(p: string): string {
    var rooted := HasPrefix(p, "/");
    var out := PushAll([], Split(p), rooted);
    if rooted then "/" + Join(out) else if out == [] then "." else Join(out)
  }

  /** `path.Dir`. */
  function Dir(p: string): string {
    Clean(p[..LastSlash(p) + 1])
  }

  function TrimSlashes(p: string): string {
    if HasSuffix(p, "/") then TrimSlashes(p[..|p| - 1]) else p
  }

  /** `path.Base`. */
  function Base(p: string): string {
    if p == "" then "."
    else
      var t := TrimSlashes(p);
      if t == "" then "/" else t[LastSlash(t) + 1..]
  }

  /** `path.Join(dir, entry)`. */
  function JoinPath(dir: string, entry: string): string {
    if dir == "" && entry == "" then ""
    else if dir == "" then Clean(entry)
    else if entry == "" then Clean(dir)
    else Clean(dir + "/" + entry)
  }

  /** No empty, "." or ".." segment: the spelling git itself gives a tree path. */
  predicate CleanRel(p: string) {
    forall seg :: seg in Split(p) ==> seg != "" && seg != "." && seg != ".."
  }

  predicate UnderDir(p: string, dir: string) {
    HasPrefix(p, dir + "/")
  }

  // ---------------------------------------------------------------- cleaning a clean path

  predicate PlainSegs(segs: seq<string>) {
    forall seg :: seg in segs ==> seg != "" && seg != "." && seg != ".."
  }

  lemma {:induction false} PushAllPlain(out: seq<string>, segs: seq<string>, rooted: bool)
    requires PlainSegs(segs)
    ensures PushAll(out, segs, rooted) == out + segs
    decreases |segs|
  {
    if segs != [] {
      assert segs[0] in segs && forall seg :: seg in segs[1..] ==> seg in segs;
      PushAllPlain(out + [segs[0]], segs[1..], rooted);
      assert out + [segs[0]] + segs[1..] == out + segs;
    } else {
      assert out + segs == out;
    }
  }

  lemma {:induction false} PushAllConcat(out: seq<string>, a: seq<string>, b: seq<string>, rooted: bool)
    ensures PushAll(out, a + b, rooted) == PushAll(PushAll(out, a, rooted), b, rooted)
    decreases |a|
  {
    if a == [] {
      assert a + b == b;
    } else {
      assert (a + b)[1..] == a[1..] + b;
      PushAllConcat(Push(out, a[0], rooted), a[1..], b, rooted);
    }
  }

  // ---------------------------------------------------------------- what cleaning does

  lemma CleanBySegments(p: string, q: string)
    requires p != "" && q != "" && p[0] == q[0]
    requires PushAll([], Split(p), p[0] == '/') == PushAll([], Split(q), p[0] == '/')
    ensures Clean(p) == Clean(q)
  {
  }

  lemma SplitMiddle(a: string, seg: string, b: string)
    requires '/' !in seg
    ensures Split(a + "/" + seg + "/" + b) == Split(a) + [seg] + Split(b)
  {
    SplitSlash(a + "/" + seg, b);
    SplitSlash(a, seg);
    SplitSlashFree(seg);
  }

  /** `path.Clean` drops an empty or "." segment. */
  lemma CleanDrops(a: string, seg: string, b: string)
    requires a != "" && (seg == "" || seg == ".")
    ensures Clean(a + "/" + seg + "/" + b) == Clean(a + "/" + b)
  {
    var p, q := a + "/" + seg + "/" + b, a + "/" + b;
    var rooted := a[0] == '/';
    SplitMiddle(a, seg, b);
    SplitSlash(a, b);
    var out := PushAll([], Split(a), rooted);
    PushAllConcat([], Split(a) + [seg], Split(b), rooted);
    PushAllConcat([], Split(a), [seg], rooted);
    assert PushAll(out, [seg], rooted) == PushAll(Push(out, seg, rooted), [], rooted);
    PushAllConcat([], Split(a), Split(b), rooted);
    assert p[0] == a[0] == q[0];
    CleanBySegments(p, q);
  }

  /** And a plain segment together with the ".." that follows it. */
  lemma CleanCancels(a: string, seg: string, b: string)
    requires a != "" && CleanRel(seg) && '/' !in seg
    ensures Clean(a + "/" + seg + "/.." + "/" + b) == Clean(a + "/" + b)
  {
    var p, q := a + "/" + seg + "/.." + "/" + b, a + "/" + b;
    var rooted := a[0] == '/';
    SplitSlashFree(seg);
    assert seg in Split(seg);
    assert p == (a + "/" + seg) + "/" + ".." + "/" + b;
    SplitMiddle(a + "/" + seg, "..", b);
    SplitSlash(a, seg);
    SplitSlash(a, b);
    var out := PushAll([], Split(a), rooted);
    PushAllConcat([], Split(a) + [seg] + [".."], Split(b), rooted);
    PushAllConcat([], Split(a) + [seg], [".."], rooted);
    PushAllConcat([], Split(a), [seg], rooted);
    assert PushAll(out, [seg], rooted) == PushAll(out + [seg], [], rooted);
    assert PushAll(out + [seg], [".."], rooted) == PushAll(Push(out + [seg], "..", rooted), [], rooted);
    assert (out + [seg])[..|out|] == out;
    PushAllConcat([], Split(a), Split(b), rooted);
    assert p[0] == a[0] == q[0];
    CleanBySegments(p, q);
  }

  /** No empty or "." segment, and ".." only in front of a relative path. */
  predicate NormalSegs(out: seq<string>, rooted: bool) {
    forall i :: 0 <= i < |out| ==>
      out[i] != "" && out[i] != "." && (out[i] == ".." ==> !rooted && forall j :: 0 <= j < i ==> out[j] == "..")
  }

  lemma {:induction false} PushAllNormal(out: seq<string>, segs: seq<string>, rooted: bool)
    requires NormalSegs(out, rooted)
    ensures NormalSegs(PushAll(out, segs, rooted), rooted)
    decreases |segs|
  {
    if segs != [] {
      var next := Push(out, segs[0], rooted);
      if segs[0] == ".." && next == out + [".."] && out != [] {
        assert out[|out| - 1] == "..";
      }
      PushAllNormal(next, segs[1..], rooted);
    }
  }

  /** What is left is in lowest form: "/" and the segments of a rooted path, "." for none, else the segments. */
  lemma CleanIsNormal(p: string)
    ensures exists out :: NormalSegs(out, HasPrefix(p, "/"))
              && Clean(p) == if HasPrefix(p, "/") then "/" + Join(out) else if out == [] then "." else Join(out)
  {
    PushAllNormal([], Split(p), HasPrefix(p, "/"));
  }

  lemma TrailingSlashNotClean(p: string)
    requires HasSuffix(p, "/")
    ensures !CleanRel(p)
  {
    assert p == p[..|p| - 1] + "/" + "";
    SplitSlash(p[..|p| - 1], "");
    var segs := Split(p);
    assert segs[|segs| - 1] == "" && segs[|segs| - 1] in segs;
  }

  lemma LeadingDotNotClean(p: string)
    requires HasPrefix(p, "./") || p == "."
    ensures !CleanRel(p)
  {
    SplitSlashFree(".");
    if p != "." {
      assert p == "." + "/" + p[2..];
      SplitSlash(".", p[2..]);
    }
    var segs := Split(p);
    assert segs[0] == "." && segs[0] in segs;
  }

  lemma CleanRelHead(p: string)
    requires CleanRel(p)
    ensures p != "" && p[0] != '/' && p[|p| - 1] != '/' && p != "." && !HasPrefix(p, "./")
  {
    assert Split(p)[0] in Split(p);
    if HasSuffix(p, "/") {
      TrailingSlashNotClean(p);
    }
    if HasPrefix(p, "./") || p == "." {
      LeadingDotNotClean(p);
    }
  }

  /** A trailing slash does not matter to `path.Clean`, except on the empty path. */
  lemma CleanTrailingSlash(p: string)
    requires p != ""
    ensures Clean(p + "/") == Clean(p)
  {
    assert p + "/" == p + "/" + "";
    SplitSlash(p, "");
    var rooted := HasPrefix(p, "/");
    assert HasPrefix(p + "/", "/") == rooted;
    PushAllConcat([], Split(p), [""], rooted);
    var out := PushAll([], Split(p), rooted);
    assert PushAll(out, [""], rooted) == out;
  }

  /** `path.Clean` keeps a clean relative path. */
  lemma CleanFixes(p: string)
    requires CleanRel(p)
    ensures Clean(p) == p
  {
    CleanRelHead(p);
    PushAllPlain([], Split(p), false);
    assert [] + Split(p) == Split(p);
    JoinSplit(p);
  }

  lemma CleanRelSlash(a: string, b: string)
    ensures CleanRel(a + "/" + b) <==> CleanRel(a) && CleanRel(b)
  {
    SplitSlash(a, b);
    var s := Split(a + "/" + b);
    assert forall seg :: seg in s <==> seg in Split(a) || seg in Split(b);
  }

  lemma JoinPathClean(dir: string, entry: string)
    requires CleanRel(dir) && CleanRel(entry)
    ensures JoinPath(dir, entry) == dir + "/" + entry && CleanRel(JoinPath(dir, entry))
  {
    CleanRelHead(dir);
    CleanRelHead(entry);
    CleanRelSlash(dir, entry);
    CleanFixes(dir + "/" + entry);
  }

  lemma TrimSlashesKeeps(p: string)
    requires !HasSuffix(p, "/")
    ensures TrimSlashes(p) == p
  {
  }

  /** On a clean path, `path.Dir` and `path.Base` cut at the last slash and lose nothing. */
  lemma DirBase(p: string)
    requires CleanRel(p)
    ensures '/' !in Base(p)
    ensures Dir(p) == "." ==> Base(p) == p
    ensures Dir(p) != "." ==> p == Dir(p) + "/" + Base(p) && CleanRel(Dir(p)) && CleanRel(Base(p))
  {
    CleanRelHead(p);
    TrimSlashesKeeps(p);
    var i := LastSlash(p);
    if i >= 0 {
      var a, b := p[..i], p[i + 1..];
      assert p == a + "/" + b;
      assert p[..i + 1] == a + "/";
      CleanRelSlash(a, b);
      CleanRelHead(a);
      CleanTrailingSlash(a);
      CleanFixes(a);
    } else {
      assert p[..0] == "";
      assert p[0..] == p;
      assert Split("") == [""];
      assert PushAll([], [""], false) == PushAll(Push([], "", false), [], false) == [];
    }
  }

  lemma LastSlashIs(p: string, i: nat)
    requires i < |p| && p[i] == '/' && '/' !in p[i + 1..]
    ensures LastSlash(p) == i
  {
    assert forall j :: i < j < |p| ==> p[j] == p[i + 1..][j - i - 1];
  }

  lemma BaseIs(p: string, i: nat)
    requires i + 1 < |p| && p[i] == '/' && '/' !in p[i + 1..]
    ensures Base(p) == p[i + 1..]
  {
    LastSlashIs(p, i);
    var tail := p[i + 1..];
    assert tail[|tail| - 1] in tail && p[|p| - 1] == tail[|tail| - 1];
    TrimSlashesKeeps(p);
  }

  /** Where a path written as directory, slash, plain name is cut, whatever the directory looks like. */
  lemma CutAt(a: string, b: string)
    requires '/' !in b && b != ""
    ensures LastSlash(a + "/" + b) == |a|
    ensures Base(a + "/" + b) == b
    ensures Dir(a + "/" + b) == Clean(a + "/")
  {
    var p := a + "/" + b;
    assert p[|a| + 1..] == b;
    LastSlashIs(p, |a|);
    BaseIs(p, |a|);
    assert p[..|a| + 1] == a + "/";
  }

  /** The same cut when the directory is a plain path. */
  lemma DirBaseOf(a: string, b: string)
    requires CleanRel(a) && b != "" && '/' !in b
    ensures Dir(a + "/" + b) == a && Base(a + "/" + b) == b
  {
    CutAt(a, b);
    CleanRelHead(a);
    CleanTrailingSlash(a);
    CleanFixes(a);
  }

  lemma UnderDirIntro(dir: string, tail: string)
    ensures UnderDir(dir + "/" + tail, dir)
  {
  }

  lemma PlainName(s: string)
    requires '/' !in s && s != "" && s != "." && s != ".."
    ensures CleanRel(s)
  {
    SplitSlashFree(s);
  }

  lemma UnderDirSplit(p: string, dir: string)
    requires UnderDir(p, dir)
    ensures p == dir + "/" + TrimPrefix(p, dir + "/")
    ensures CleanRel(p) ==> CleanRel(dir) && CleanRel(TrimPrefix(p, dir + "/"))
  {
    CleanRelSlash(dir, TrimPrefix(p, dir + "/"));
  }

  lemma UnderDirTrans(p: string, a: string, b: string)
    requires UnderDir(p, a) && (a == b || UnderDir(a, b))
    ensures UnderDir(p, b)
  {
    if UnderDir(a, b) {
      assert a[..|b| + 1] == b + "/";
      assert p[..|a| + 1] == a + "/";
      assert p[..|b| + 1] == p[..|a| + 1][..|b| + 1];
      assert (a + "/")[..|b| + 1] == a[..|b| + 1];
    }
  }

  // ---------------------------------------------------------------- the two normalisers

  /** Every leading "./" removed. */
  function StripDotSlash(s: string): (r: string)
    ensures !HasPrefix(r, "./")
    ensures |r| <= |s| && (s != "" && s[0] == '/' ==> r == s)
  {
    if HasPrefix(s, "./") then StripDotSlash(s[2..]) else s
  }

  function Dots(n: nat): string {
    if n == 0 then "" else "./" + Dots(n - 1)
  }

  /** r is what stands between the outer blanks of value once every leading "./" is gone. */
  ghost predicate Normalises(value: string, r: string) {
    !HasPrefix(r, "./") && exists n :: Trims(value, Dots(n) + r)
  }

  lemma {:induction false} StripIs(s: string) returns (n: nat)
    ensures s == Dots(n) + StripDotSlash(s)
  {
    if HasPrefix(s, "./") {
      n := StripIs(s[2..]);
      assert s == "./" + (Dots(n) + StripDotSlash(s));
      assert s == Dots(n + 1) + StripDotSlash(s);
      n := n + 1;
    } else {
      n := 0;
    }
  }

  lemma NormalisesIs(value: string)
    ensures Normalises(value, StripDotSlash(TrimSpace(value)))
  {
    TrimSpaceIs(value);
    var n := StripIs(TrimSpace(value));
    assert Trims(value, Dots(n) + StripDotSlash(TrimSpace(value)));
  }

  /** githubapp's hintPath. */
  method HintPath(value: string) returns (r: string)
    ensures r == StripDotSlash(TrimSpace(value))
    ensures Normalises(value, r)
  {
    NormalisesIs(value);
    r := TrimSpace(value);
    while HasPrefix(r, "./")
      invariant StripDotSlash(r) == StripDotSlash(TrimSpace(value))
      decreases |r|
    {
      r := r[2..];
    }
  }

  /** ingest's cleanRepoDir, as a value. */
  function CleanRepoDir(dir: string): string {
    Clean(StripDotSlash(TrimSpace(dir)))
  }

  method CleanRepoDirLoop(dir: string) returns (r: string)
    ensures r == CleanRepoDir(dir)
    ensures exists x :: Normalises(dir, x) && r == Clean(x)
  {
    NormalisesIs(dir);
    r := TrimSpace(dir);
    while HasPrefix(r, "./")
      invariant StripDotSlash(r) == StripDotSlash(TrimSpace(dir))
      decreases |r|
    {
      r := r[2..];
    }
    r := Clean(r);
  }

  /** githubapp's docsDirHint for a config that sets docs_dir. */
  function DocsDirHint(dir: string): string {
    TrimSuffix(StripDotSlash(TrimSpace(dir)), "/")
  }

  lemma RootAndNothing()
    ensures Clean("/") != "" && Clean("") != ""
  {
    CleanEmpty();
    assert HasPrefix("/", "/") && Clean("/")[0] == '/';
  }

  /** Cutting one trailing slash off a path gives its clean form exactly when the cut path is in clean form. */
  lemma CutAgreement(y: string)
    ensures TrimSuffix(y, "/") == Clean(y) <==> Clean(TrimSuffix(y, "/")) == TrimSuffix(y, "/")
  {
    var x := TrimSuffix(y, "/");
    if y == "/" {
      RootAndNothing();
    } else if HasSuffix(y, "/") {
      assert y == x + "/";
      CleanTrailingSlash(x);
    }
  }

  /** The fetch prefix and the classifier prefix are the same directory exactly when what the hint
      computes is already in `path.Clean` form. */
  lemma HintAgreement(dir: string)
    ensures DocsDirHint(dir) == CleanRepoDir(dir) <==> Clean(DocsDirHint(dir)) == DocsDirHint(dir)
  {
    CutAgreement(StripDotSlash(TrimSpace(dir)));
  }

  /** In particular they agree on every docs_dir that is a plain path once normalised. */
  lemma HintAgreementPlain(dir: string)
    requires CleanRel(DocsDirHint(dir))
    ensures DocsDirHint(dir) == CleanRepoDir(dir)
  {
    CleanFixes(DocsDirHint(dir));
    HintAgreement(dir);
  }

  /** A plain docs_dir passes through the classifier's normaliser unchanged, unless it has outer blanks. */
  lemma CleanRepoDirKeeps(dir: string)
    requires CleanRel(dir) && TrimSpace(dir) == dir
    ensures CleanRepoDir(dir) == dir && DocsDirHint(dir) == dir
  {
    CleanRelHead(dir);
    CleanFixes(dir);
  }

  // ---------------------------------------------------------------- lengths

  function Weight(segs: seq<string>): nat {
    if segs == [] then 0 else |segs[0]| + 1 + Weight(segs[1..])
  }

  lemma {:induction false} WeightSnoc(segs: seq<string>, seg: string)
    ensures Weight(segs + [seg]) == Weight(segs) + |seg| + 1
  {
    if segs != [] {
      assert (segs + [seg])[1..] == segs[1..] + [seg];
      WeightSnoc(segs[1..], seg);
    }
  }

  lemma {:induction false} WeightPushAll(out: seq<string>, segs: seq<string>, rooted: bool)
    ensures Weight(PushAll(out, segs, rooted)) <= Weight(out) + Weight(segs)
    decreases |segs|
  {
    if segs != [] {
      WeightSnoc(out, segs[0]);
      if out != [] {
        assert out[..|out| - 1] + [out[|out| - 1]] == out;
        WeightSnoc(out[..|out| - 1], out[|out| - 1]);
      }
      WeightPushAll(Push(out, segs[0], rooted), segs[1..], rooted);
    }
  }

  lemma {:induction false} JoinWeight(segs: seq<string>)
    ensures segs != [] ==> |Join(segs)| == Weight(segs) - 1
  {
    if |segs| > 1 {
      JoinWeight(segs[1..]);
    } else if |segs| == 1 {
      assert Weight(segs[1..]) == 0;
    }
  }

  /** `path.Clean` never lengthens a path whose clean form is a plain one. */
  lemma CleanShrinks(p: string)
    requires CleanRel(Clean(p))
    ensures |Clean(p)| <= |p|
  {
    CleanRelHead(Clean(p));
    JoinSplit(p);
    JoinWeight(Split(p));
    WeightPushAll([], Split(p), HasPrefix(p, "/"));
    JoinWeight(PushAll([], Split(p), HasPrefix(p, "/")));
  }

  lemma {:induction false} TrimLeftShrinks(s: string)
    ensures |TrimLeft(s)| <= |s|
  {
    if s != "" && IsSpace(s[0]) {
      TrimLeftShrinks(s[1..]);
    }
  }

  lemma {:induction false} TrimRightShrinks(s: string)
    ensures |TrimRight(s)| <= |s|
  {
    if s != "" && IsSpace(s[|s| - 1]) {
      TrimRightShrinks(s[..|s| - 1]);
    }
  }

  /** Trimming that loses nothing changes nothing. */
  lemma TrimSpaceSame(s: string)
    requires |TrimSpace(s)| == |s|
    ensures TrimSpace(s) == s
  {
    TrimLeftShrinks(s);
    TrimRightShrinks(TrimLeft(s));
    if s != "" && IsSpace(s[0]) {
      TrimLeftShrinks(s[1..]);
    }
    var t := TrimLeft(s);
    if t != "" && IsSpace(t[|t| - 1]) {
      TrimRightShrinks(t[..|t| - 1]);
    }
  }

  /** A plain cleaned directory is no longer than what it was cleaned from, or than the fetch's hint. */
  lemma CleanRepoDirShrinks(dir: string)
    requires CleanRel(CleanRepoDir(dir))
    ensures |CleanRepoDir(dir)| <= |StripDotSlash(TrimSpace(dir))| <= |TrimSpace(dir)| <= |dir|
    ensures |CleanRepoDir(dir)| <= |DocsDirHint(dir)|
  {
    var y := StripDotSlash(TrimSpace(dir));
    CleanShrinks(y);
    TrimLeftShrinks(dir);
    TrimRightShrinks(TrimLeft(dir));
    var x := DocsDirHint(dir);
    if HasSuffix(y, "/") {
      assert y == x + "/";
      if x == "" {
        assert Clean("/")[0] == '/';
        CleanRelHead(Clean("/"));
      } else {
        CleanTrailingSlash(x);
        CleanShrinks(x);
      }
    }
  }

  /** A docs_dir in the form the classifier cleans it to is its own hint too. */
  lemma FixedDocsDir(dir: string)
    requires dir == CleanRepoDir(dir) && CleanRel(dir)
    ensures TrimSpace(dir) == dir && DocsDirHint(dir) == dir
  {
    CleanRepoDirShrinks(dir);
    TrimSpaceSame(dir);
    CleanRepoDirKeeps(dir);
  }

  /** A file directly in one directory starts with no other that is at least as long. */
  lemma NotPrefixed(dir: string, other: string, name: string)
    requires |other| >= |dir| && '/' !in name
    ensures HasPrefix(dir + "/" + name, other + "/") ==> other == dir
  {
    var p, q := dir + "/" + name, other + "/";
    assert forall i :: |dir| < i < |p| ==> p[i] == name[i - |dir| - 1] && name[i - |dir| - 1] in name;
    assert HasPrefix(p, q) ==> p[|other|] == q[|other|] == '/';
    assert p[..|dir|] == dir && q[..|other|] == other;
  }

  // ---------------------------------------------------------------- joining below a directory

  lemma {:induction false} JoinConcat(a: seq<string>, b: seq<string>)
    requires a != [] && b != []
    ensures Join(a + b) == Join(a) + "/" + Join(b)
  {
    if |a| == 1 {
      assert (a + b)[1..] == b;
    } else {
      assert (a + b)[1..] == a[1..] + b;
      JoinConcat(a[1..], b);
    }
  }

  /** A leading "./" does not matter to `path.Clean` unless it hides a rooted path. */
  lemma {:induction false} CleanStrip(s: string)
    requires !HasPrefix(StripDotSlash(s), "/")
    ensures Clean(s) == Clean(StripDotSlash(s))
    decreases |s|
  {
    if HasPrefix(s, "./") {
      CleanStrip(s[2..]);
      assert s == "." + "/" + s[2..];
      SplitSlash(".", s[2..]);
      SplitSlashFree(".");
      assert Split(s)[1..] == Split(s[2..]);
    }
  }

  /** Joining a plain entry below a directory that cleans to a plain path. */
  lemma JoinBelow(dir: string, entry: string)
    requires CleanRel(Clean(dir)) && CleanRel(entry) && dir != ""
    ensures JoinPath(dir, entry) == Clean(dir) + "/" + entry
  {
    CleanRelHead(Clean(dir));
    CleanRelHead(entry);
    SplitSlash(dir, entry);
    var out := PushAll([], Split(dir), false);
    PushAllConcat([], Split(dir), Split(entry), false);
    PushAllPlain(out, Split(entry), false);
    JoinConcat(out, Split(entry));
    JoinSplit(entry);
  }

  lemma CleanEmpty()
    ensures Clean("") == "."
  {
    assert Split("") == [""] && PushAll([], [""], false) == PushAll([], [], false);
  }

  /** So the classifier's directory is the parent of every type directory, for any docs_dir without outer blanks. */
  lemma JoinBelowRepoDir(dir: string, entry: string)
    requires CleanRel(CleanRepoDir(dir)) && TrimSpace(dir) == dir && CleanRel(entry)
    ensures JoinPath(dir, entry) == CleanRepoDir(dir) + "/" + entry
  {
    CleanRelHead(CleanRepoDir(dir));
    assert !HasPrefix(StripDotSlash(dir), "/");
    CleanStrip(dir);
    CleanEmpty();
    JoinBelow(dir, entry);
  }
}
