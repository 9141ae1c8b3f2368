/** server.mjs: the static file server's decisions. A request for the favicon gets an
    empty 204; any other request URL is turned into a file path under the public
    directory (`pathFrom`), which is refused with 404 when the joined path does not start
    with the directory, and otherwise served with a content type chosen by the file's
    extension. Node's `url.parse` pathname, `path.join` (POSIX) and `path.parse` extension
    rules are written out on strings. */
module Server {
  import opened Js

  const FAVICON: string := "/favicon.ico"
  /** The file served for the pathname `/`. */
  const ROOT: string := "/index.html"

  // ---------------------------------------------------------------- url.parse

  /** `url.parse` turns every backslash before the query or fragment into a slash. */
  function Slashed(c: char): char {
    if c == '\\' then '/' else c
  }

  /** `url.parse(url).pathname` for an origin-form request target (no scheme, no
      `//user@host` prefix): everything before the first `?` (query) or `#` (fragment),
      with each backslash read as a slash. */
  function Pathname(url: string): (r: string)
    ensures |r| <= |url|
    ensures forall i :: 0 <= i < |r| ==> url[i] != '?' && url[i] != '#' && r[i] == Slashed(url[i])
    ensures |r| < |url| ==> url[|r|] == '?' || url[|r|] == '#'
  {
    if url == [] || url[0] == '?' || url[0] == '#' then []
    else [Slashed(url[0])] + Pathname(url[1..])
  }

  /** Only the path decides: whatever query follows it is dropped. */
  lemma QueryIgnored(path: string, query: string)
    requires forall i :: 0 <= i < |path| ==> path[i] != '?' && path[i] != '#'
    ensures Pathname(path + "?" + query) == Pathname(path)
  {
    var u := path + "?" + query;
    assert u[|path|] == '?';
    forall i | 0 <= i < |path| ensures u[i] == path[i] { }
    PathnameWhole(path);
  }

  /** A target without query or fragment is pathname to its end. */
  lemma PathnameWhole(url: string)
    requires forall i :: 0 <= i < |url| ==> url[i] != '?' && url[i] != '#'
    ensures |Pathname(url)| == |url|
  {
  }

  // ---------------------------------------------------------------- path segments

  predicate SlashFree(s: string) {
    forall i :: 0 <= i < |s| ==> s[i] != '/'
  }

  /** `s.split('/')`. */
  function Split(s: string): (r: seq<string>)
    ensures |r| >= 1
    ensures forall i :: 0 <= i < |r| ==> SlashFree(r[i])
    decreases |s|
  {
    if s == [] then [""]
    else
      var rest := Split(s[1..]);
      if s[0] == '/' then [""] + rest
      else [[s[0]] + rest[0]] + rest[1..]
  }

  /** `segments.join('/')`. */
  function JoinSlash(segs: seq<string>): string {
    if segs == [] then ""
    else if |segs| == 1 then segs[0]
    else segs[0] + "/" + JoinSlash(segs[1..])
  }

  lemma {:induction false} SplitSlashFree(s: string)
    requires SlashFree(s)
    ensures Split(s) == [s]
    decreases |s|
  {
    if s != [] {
      SplitSlashFree(s[1..]);
      assert [s[0]] + s[1..] == s;
    }
  }

  /** Splitting at a slash splits each side. */
  lemma {:induction false} SplitAppend(a: string, b: string)
    ensures Split(a + "/" + b) == Split(a) + Split(b)
    decreases |a|
  {
    if a == [] {
      assert a + "/" + b == "/" + b;
      assert ("/" + b)[1..] == b;
    } else {
      assert (a + "/" + b)[0] == a[0];
      assert (a + "/" + b)[1..] == a[1..] + "/" + b;
      SplitAppend(a[1..], b);
    }
  }

  /** Splitting undoes joining. */
  lemma {:induction false} SplitJoin(segs: seq<string>)
    requires |segs| >= 1 && forall i :: 0 <= i < |segs| ==> SlashFree(segs[i])
    ensures Split(JoinSlash(segs)) == segs
    decreases |segs|
  {
    SplitSlashFree(segs[0]);
    if |segs| > 1 {
      SplitJoin(segs[1..]);
      SplitAppend(segs[0], JoinSlash(segs[1..]));
      assert [segs[0]] + segs[1..] == segs;
    }
  }

  lemma {:induction false} JoinAppend(a: seq<string>, b: seq<string>)
    requires a != [] && b != []
    ensures JoinSlash(a + b) == JoinSlash(a) + "/" + JoinSlash(b)
    decreases |a|
  {
    if |a| == 1 {
      assert (a + b)[1..] == b;
    } else {
      assert (a + b)[1..] == a[1..] + b;
      JoinAppend(a[1..], b);
    }
  }

  // ---------------------------------------------------------------- path.normalize

  /** A segment a normal path keeps: non-empty, neither `.` nor `..`, without a slash. */
  predicate Clean(seg: string) {
    seg != "" && seg != "." && seg != ".." && SlashFree(seg)
  }

  predicate AllClean(stack: seq<string>) {
    forall i :: 0 <= i < |stack| ==> Clean(stack[i])
  }

  /** One segment of normalisation: empty and `.` segments vanish, `..` drops the last
      kept segment (and stays at the root), any other segment is kept. */
  function Step(stack: seq<string>, seg: string): seq<string> {
    if seg == "" || seg == "." then stack
    else if seg == ".." then (if stack == [] then [] else stack[..|stack| - 1])
    else stack + [seg]
  }

  function Resolve(stack: seq<string>, segs: seq<string>): seq<string>
    decreases |segs|
  {
    if segs == [] then stack else Resolve(Step(stack, segs[0]), segs[1..])
  }

  lemma {:induction false} ResolveAppend(stack: seq<string>, a: seq<string>, b: seq<string>)
    ensures Resolve(stack, a + b) == Resolve(Resolve(stack, a), b)
    decreases |a|
  {
    if a == [] {
      assert a + b == b;
    } else {
      assert (a + b)[0] == a[0] && (a + b)[1..] == a[1..] + b;
      ResolveAppend(Step(stack, a[0]), a[1..], b);
    }
  }

  /** Resolving slash-free segments onto clean ones leaves only clean segments. */
  lemma {:induction false} ResolveClean(stack: seq<string>, segs: seq<string>)
    requires AllClean(stack) && forall i :: 0 <= i < |segs| ==> SlashFree(segs[i])
    ensures AllClean(Resolve(stack, segs))
    decreases |segs|
  {
    if segs != [] {
      ResolveClean(Step(stack, segs[0]), segs[1..]);
    }
  }

  /** The segments that are neither empty nor `.`. */
  function Kept(segs: seq<string>): seq<string>
    decreases |segs|
  {
    if segs == [] then []
    else (if segs[0] == "" || segs[0] == "." then [] else [segs[0]]) + Kept(segs[1..])
  }

  /** Without `..`, resolving only appends the segments kept. */
  lemma {:induction false} ResolveNoParent(stack: seq<string>, segs: seq<string>)
    requires ".." !in segs
    ensures Resolve(stack, segs) == stack + Kept(segs)
    decreases |segs|
  {
    if segs != [] {
      var x := segs[0];
      var rest := segs[1..];
      assert segs == [x] + rest;
      assert x != ".." && ".." !in rest;
      var here: seq<string> := if x == "" || x == "." then [] else [x];
      assert Step(stack, x) == stack + here;
      ResolveNoParent(stack + here, rest);
      assert Kept(segs) == here + Kept(rest);
      assert stack + here + Kept(rest) == stack + (here + Kept(rest));
    }
  }

  /** Resolving clean segments keeps them all. */
  lemma ResolveAllClean(stack: seq<string>, segs: seq<string>)
    requires AllClean(segs)
    ensures Resolve(stack, segs) == stack + segs
  {
    assert forall x :: x in segs ==> Clean(x);
    ResolveNoParent(stack, segs);
    KeptAllClean(segs);
  }

  lemma {:induction false} KeptAllClean(segs: seq<string>)
    requires AllClean(segs)
    ensures Kept(segs) == segs
    decreases |segs|
  {
    if segs != [] {
      KeptAllClean(segs[1..]);
      assert [segs[0]] + segs[1..] == segs;
    }
  }

  predicate Absolute(p: string) {
    p != [] && p[0] == '/'
  }

  /** An absolute path written from its segments, with a trailing slash if asked for. */
  function Render(stack: seq<string>, trailing: bool): (r: string)
    ensures Absolute(r)
  {
    if stack == [] then "/" else "/" + JoinSlash(stack) + (if trailing then "/" else "")
  }

  /** `path.normalize(p)` for an absolute p: the resolved segments, keeping a trailing
      slash. */
  function Normalize(p: string): (r: string)
    requires Absolute(p)
    ensures Absolute(r)
  {
    Render(Resolve([], Split(p)), p[|p| - 1] == '/')
  }

  /** `path.join(dir, name)` for an absolute dir: the two joined by a slash (an empty
      name is skipped), then normalised. */
  function Join(dir: string, name: string): (r: string)
    requires Absolute(dir)
    ensures Absolute(r)
  {
    Normalize(if name == [] then dir else dir + "/" + name)
  }

  /** A rendered path splits back into its segments. */
  lemma SplitRender(stack: seq<string>, trailing: bool)
    requires AllClean(stack)
    ensures Split(Render(stack, trailing)) ==
      [""] + stack + (if trailing || stack == [] then [""] else [])
  {
    if stack == [] {
      assert Split("/") == [""] + Split("");
    } else {
      var body := JoinSlash(stack);
      SplitJoin(stack);
      if trailing {
        assert Render(stack, trailing) == "/" + (body + "/" + "");
        SplitAppend(body, "");
      } else {
        assert Render(stack, trailing) == "/" + body;
      }
    }
  }

  /** A path of clean segments ends in a segment character, never in a slash. */
  lemma {:induction false} JoinLast(stack: seq<string>)
    requires stack != [] && AllClean(stack)
    ensures JoinSlash(stack) != [] && JoinSlash(stack)[|JoinSlash(stack)| - 1] != '/'
    decreases |stack|
  {
    assert Clean(stack[0]);
    if |stack| > 1 {
      assert AllClean(stack[1..]) by {
        assert forall i :: 0 <= i < |stack[1..]| ==> stack[1..][i] == stack[i + 1];
      }
      JoinLast(stack[1..]);
      assert JoinSlash(stack) == stack[0] + "/" + JoinSlash(stack[1..]);
    }
  }

  /** Normalising a rendered clean path gives the same path. */
  lemma NormalizeRender(stack: seq<string>, trailing: bool)
    requires AllClean(stack)
    ensures Normalize(Render(stack, trailing)) == Render(stack, trailing)
  {
    var p := Render(stack, trailing);
    var tail: seq<string> := if trailing || stack == [] then [""] else [];
    SplitRender(stack, trailing);
    assert Split(p) == [""] + (stack + tail);
    ResolveAppend([], [""], stack + tail);
    ResolveAppend([], stack, tail);
    ResolveAllClean([], stack);
    assert Resolve(stack, tail) == stack;
    assert Resolve([], Split(p)) == stack;
    if stack != [] && !trailing {
      JoinLast(stack);
      assert p == "/" + JoinSlash(stack);
      assert p[|p| - 1] != '/';
    }
  }

  /** `path.normalize` is idempotent: what it returns is already normal. */
  lemma NormalizeIdempotent(p: string)
    requires Absolute(p)
    ensures Normalize(Normalize(p)) == Normalize(p)
  {
    ResolveClean([], Split(p));
    NormalizeRender(Resolve([], Split(p)), p[|p| - 1] == '/');
  }

  // ---------------------------------------------------------------- pathFrom

  /** The name `pathFrom` joins: the pathname, or `root` for the pathname `/`. */
  function Target(url: string, root: string): string {
    var pathname := Pathname(url);
    if pathname == "/" then root else pathname
  }

  /** `pathFrom(url, dir, root)`: the joined path when it starts with `dir` (a plain
      string-prefix test), otherwise nothing. What it returns lies under `dir` as a string
      and is a normal path. */
  function PathFrom(url: string, dir: string, root: string): (r: Option<string>)
    requires Absolute(dir)
    ensures r.Some? ==> r.value == Join(dir, Target(url, root))
    ensures r.Some? ==> dir <= r.value && Normalize(r.value) == r.value
    ensures r.None? <==> !(dir <= Join(dir, Target(url, root)))
  {
    var filepath := Join(dir, Target(url, root));
    NormalizeIdempotent(if Target(url, root) == [] then dir else dir + "/" + Target(url, root));
    if dir <= filepath then Some(filepath) else None
  }

  /** A name joined onto a rendered clean directory splits into the directory's
      segments followed by the name's. */
  lemma JoinedSplit(stack: seq<string>, name: string)
    requires stack != [] && AllClean(stack)
    ensures Split(Render(stack, false) + "/" + name) == [""] + (stack + Split(name))
  {
    var body := JoinSlash(stack);
    assert Render(stack, false) + "/" + name == "/" + (body + "/" + name);
    assert Split("/" + (body + "/" + name)) == [""] + Split(body + "/" + name);
    SplitAppend(body, name);
    SplitJoin(stack);
  }

  /** Resolving a clean directory followed by segments without `..`. */
  lemma ResolveJoined(stack: seq<string>, segs: seq<string>)
    requires AllClean(stack) && ".." !in segs
    ensures Resolve([], [""] + (stack + segs)) == stack + Kept(segs)
  {
    ResolveAppend([], [""], stack + segs);
    assert Resolve([], [""]) == Resolve([], []);
    ResolveAppend([], stack, segs);
    ResolveAllClean([], stack);
    assert [] + stack == stack;
    ResolveNoParent(stack, segs);
  }

  /** `..` after a clean directory drops its last segment. */
  lemma ResolveUp(parent: seq<string>, d: string, e: string)
    requires AllClean(parent) && Clean(d) && Clean(e)
    ensures Resolve([], [""] + ((parent + [d]) + ["", "..", e])) == parent + [e]
  {
    var stack := parent + [d];
    assert AllClean(stack);
    ResolveAppend([], [""], stack + ["", "..", e]);
    assert Resolve([], [""]) == Resolve([], []);
    ResolveAppend([], stack, ["", "..", e]);
    ResolveAllClean([], stack);
    assert [] + stack == stack;
    assert Resolve(stack, ["", "..", e]) == Resolve(stack, ["..", e]);
    assert stack[..|stack| - 1] == parent;
    assert Resolve(stack, ["..", e]) == Resolve(parent, [e]);
    assert Resolve(parent, [e]) == Resolve(parent + [e], []);
  }

  /** The segments of `/../e`. */
  lemma SplitUp(e: string)
    requires SlashFree(e)
    ensures Split("/../" + e) == ["", "..", e]
  {
    assert "/../" + e == "" + "/" + (".." + "/" + e);
    SplitAppend("", ".." + "/" + e);
    SplitAppend("..", e);
    SplitSlashFree("..");
    SplitSlashFree(e);
  }

  /** A rendered clean path is a string prefix of any path rendered from more segments. */
  lemma RenderExtends(stack: seq<string>, kept: seq<string>, trailing: bool)
    requires stack != []
    ensures Render(stack, false) <= Render(stack + kept, trailing)
  {
    if kept == [] {
      assert stack + kept == stack;
    } else {
      JoinAppend(stack, kept);
      var head := "/" + JoinSlash(stack);
      var tail := "/" + JoinSlash(kept) + (if trailing then "/" else "");
      assert Render(stack + kept, trailing) == head + tail;
      PrefixOfConcat(head, tail);
    }
  }

  lemma PrefixOfConcat(a: string, b: string)
    ensures a <= a + b
  {
    assert (a + b)[..|a|] == a;
  }

  /** Joining a name without `..` segments onto a normal directory never leaves the
      directory: such a request is never refused. */
  lemma CleanNameServed(stack: seq<string>, name: string)
    requires stack != [] && AllClean(stack)
    requires ".." !in Split(name)
    ensures Render(stack, false) <= Join(Render(stack, false), name)
  {
    var dir := Render(stack, false);
    if name == [] {
      NormalizeRender(stack, false);
    } else {
      var joined := dir + "/" + name;
      JoinedSplit(stack, name);
      ResolveJoined(stack, Split(name));
      RenderExtends(stack, Kept(Split(name)), joined[|joined| - 1] == '/');
    }
  }

  /** A request whose path has no `..` segment always gets its file under a normal
      public directory. */
  lemma CleanRequestServed(url: string, stack: seq<string>, root: string)
    requires stack != [] && AllClean(stack)
    requires ".." !in Split(Target(url, root))
    ensures PathFrom(url, Render(stack, false), root).Some?
  {
    CleanNameServed(stack, Target(url, root));
  }

  /** What a rendered path has before its last segment. */
  function Lead(parent: seq<string>): string {
    if parent == [] then "/" else "/" + JoinSlash(parent) + "/"
  }

  lemma RenderLast(parent: seq<string>, x: string)
    ensures Render(parent + [x], false) == Lead(parent) + x
  {
    if parent == [] {
      assert parent + [x] == [x];
    } else {
      JoinAppend(parent, [x]);
    }
  }

  lemma PrefixCancel(p: string, d: string, e: string)
    ensures p + d <= p + e <==> d <= e
  {
    if p + d <= p + e {
      assert d == (p + e)[|p|..|p| + |d|];
      assert (p + e)[|p|..|p| + |d|] == e[..|d|];
    }
    if d <= e {
      assert p + d == (p + e)[..|p| + |d|];
    }
  }

  /** Climbing one level with `/../e` out of the public directory `.../d`: the joined
      path is the sibling `.../e`, and the string prefix test lets it through exactly
      when the directory name d is a prefix of e. */
  lemma ParentStep(parent: seq<string>, d: string, e: string)
    requires AllClean(parent) && Clean(d) && Clean(e)
    requires forall i :: 0 <= i < |e| ==> e[i] != '?' && e[i] != '#' && e[i] != '\\'
    ensures PathFrom("/../" + e, Render(parent + [d], false), ROOT) ==
      if d <= e then Some(Render(parent + [e], false)) else None
  {
    ParentTarget(e);
    ParentJoin(parent, d, e);
    RenderLast(parent, d);
    RenderLast(parent, e);
    PrefixCancel(Lead(parent), d, e);
  }

  /** `/../e` is its own target. */
  lemma ParentTarget(e: string)
    requires forall i :: 0 <= i < |e| ==> e[i] != '?' && e[i] != '#' && e[i] != '\\'
    ensures Target("/../" + e, ROOT) == "/../" + e
  {
    PathnameStops("/../" + e);
  }

  /** `/../e` joined onto `.../d` is the sibling `.../e`. */
  lemma ParentJoin(parent: seq<string>, d: string, e: string)
    requires AllClean(parent) && Clean(d) && Clean(e)
    ensures Join(Render(parent + [d], false), "/../" + e) == Render(parent + [e], false)
  {
    var url := "/../" + e;
    var stack := parent + [d];
    assert AllClean(stack);
    var dir := Render(stack, false);
    var joined := dir + "/" + url;
    JoinedSplit(stack, url);
    SplitUp(e);
    ResolveUp(parent, d, e);
    assert Resolve([], Split(joined)) == parent + [e];
    assert joined[|joined| - 1] == e[|e| - 1];
  }

  /** The prefix test is on strings, not on path segments: `/../` into a sibling
      directory whose name extends the public directory's name is served, although the
      file lies outside the directory. */
  lemma SiblingPrefixPasses(parent: seq<string>, d: string, x: string)
    requires AllClean(parent) && Clean(d) && x != [] && Clean(d + x)
    requires forall i :: 0 <= i < |d + x| ==> (d + x)[i] != '?' && (d + x)[i] != '#' && (d + x)[i] != '\\'
    ensures PathFrom("/../" + d + x, Render(parent + [d], false), ROOT) ==
      Some(Render(parent + [d + x], false))
    ensures !(Render(parent + [d], false) + "/" <= Render(parent + [d + x], false))
  {
    assert "/../" + d + x == "/../" + (d + x);
    ParentStep(parent, d, d + x);
    SiblingOutside(parent, d, x);
  }

  /** The sibling's path does not lie under the directory's path. */
  lemma SiblingOutside(parent: seq<string>, d: string, x: string)
    requires AllClean(parent) && Clean(d) && x != [] && Clean(d + x)
    ensures !(Render(parent + [d], false) + "/" <= Render(parent + [d + x], false))
  {
    RenderLast(parent, d);
    RenderLast(parent, d + x);
    var served := Lead(parent) + (d + x);
    assert served[|Lead(parent)| + |d|] == x[0];
    assert (d + x)[|d|] == x[0];
    assert (Lead(parent) + d + "/")[|Lead(parent)| + |d|] == '/';
  }

  /** A target without query, fragment or backslash is all pathname. */
  lemma PathnameStops(url: string)
    requires forall i :: 0 <= i < |url| ==> url[i] != '?' && url[i] != '#' && url[i] != '\\'
    ensures Pathname(url) == url
  {
    PathnameWhole(url);
  }

  /** A target without query or fragment has as pathname its characters, each
      backslash read as a slash. */
  lemma PathnameOf(u: string, v: string)
    requires |u| == |v| && forall i :: 0 <= i < |u| ==> u[i] != '?' && u[i] != '#' && Slashed(u[i]) == v[i]
    ensures Pathname(u) == v
  {
    PathnameWhole(u);
    var r := Pathname(u);
    forall i | 0 <= i < |u| ensures r[i] == v[i] { }
  }

  lemma BackslashChars(e: string, u: string, v: string)
    requires forall i :: 0 <= i < |e| ==> e[i] != '?' && e[i] != '#' && e[i] != '\\'
    requires u == "/..\\" + e && v == "/../" + e
    ensures |u| == |v| && forall i :: 0 <= i < |u| ==> u[i] != '?' && u[i] != '#' && Slashed(u[i]) == v[i]
  {
    forall i | 0 <= i < |u| ensures u[i] != '?' && u[i] != '#' && Slashed(u[i]) == v[i] {
      if i >= 4 {
        assert u[i] == e[i - 4] && v[i] == e[i - 4];
      }
    }
  }

  /** A backslash separates segments as a slash does: `/..\\e` is read as `/../e`. */
  lemma BackslashParent(e: string)
    requires forall i :: 0 <= i < |e| ==> e[i] != '?' && e[i] != '#' && e[i] != '\\'
    ensures Pathname("/..\\" + e) == "/../" + e
  {
    BackslashChars(e, "/..\\" + e, "/../" + e);
    PathnameOf("/..\\" + e, "/../" + e);
  }

  /** So `/..\\e` is refused or served exactly as `/../e` is. */
  lemma BackslashRouted(dir: string, e: string)
    requires Absolute(dir)
    requires forall i :: 0 <= i < |e| ==> e[i] != '?' && e[i] != '#' && e[i] != '\\'
    ensures PathFrom("/..\\" + e, dir, ROOT) == PathFrom("/../" + e, dir, ROOT)
  {
    BackslashParent(e);
    PathnameStops("/../" + e);
    assert Target("/..\\" + e, ROOT) == Target("/../" + e, ROOT);
  }

  // ---------------------------------------------------------------- path.parse(...).ext

  /** The position of the last `c` in s, or -1. */
  function LastIndex(s: string, c: char): (r: int)
    ensures -1 <= r < |s|
    ensures r >= 0 ==> s[r] == c
    ensures forall j :: r < j < |s| ==> s[j] != c
  {
    if s == [] then -1
    else if s[|s| - 1] == c then |s| - 1
    else LastIndex(s[..|s| - 1], c)
  }

  /** s without its trailing slashes. */
  function TrimSlashes(s: string): (r: string)
    ensures r <= s
    ensures r == [] || r[|r| - 1] != '/'
  {
    if s != [] && s[|s| - 1] == '/' then TrimSlashes(s[..|s| - 1]) else s
  }

  /** `path.parse(p).base`: the last segment, trailing slashes ignored. */
  function Base(p: string): string {
    var t := TrimSlashes(p);
    t[LastIndex(t, '/') + 1..]
  }

  /** `path.parse(p).ext`: from the base's last dot on; empty when there is no dot, when
      the only dot leads the name (a dot file) or when the base is `..`. */
  function Ext(p: string): (r: string)
    ensures r == [] || r[0] == '.'
    ensures r != [] ==> |r| <= |Base(p)| && Base(p)[|Base(p)| - |r|..] == r
  {
    var base := Base(p);
    var dot := LastIndex(base, '.');
    if base == ".." || dot <= 0 then [] else base[dot..]
  }

  /** `mimes[ext] || 'text/plain'`. */
  function Mime(ext: string): (r: string)
    ensures r == "text/html" <==> ext == ".html"
    ensures r == "text/javascript" <==> ext == ".mjs"
    ensures ext != ".html" && ext != ".mjs" ==> r == "text/plain"
  {
    if ext == ".html" then "text/html" else if ext == ".mjs" then "text/javascript" else "text/plain"
  }

  /** Appending slash-free text to a path that does not end in a slash extends its base. */
  lemma BaseAppend(p: string, e: string)
    requires p != [] && p[|p| - 1] != '/'
    requires e != [] && SlashFree(e)
    ensures Base(p) != [] && Base(p + e) == Base(p) + e
  {
    var s := p + e;
    assert s[|s| - 1] == e[|e| - 1];
    assert TrimSlashes(s) == s;
    assert TrimSlashes(p) == p;
    LastIndexAppend(p, e, '/');
    var l := LastIndex(p, '/');
    assert l < |p| - 1;
    assert s[l + 1..] == p[l + 1..] + e;
  }

  /** A file named with an extension, after a non-empty name, has that extension. */
  lemma ExtOfSuffix(p: string, e: string)
    requires p != [] && p[|p| - 1] != '/'
    requires |e| >= 2 && e[0] == '.' && forall i :: 1 <= i < |e| ==> e[i] != '.' && e[i] != '/'
    ensures Ext(p + e) == e
  {
    BaseAppend(p, e);
    var q := Base(p);
    var base := q + e;
    assert base[|base| - 1] == e[|e| - 1] != '.';
    assert base != "..";
    assert base == (q + [e[0]]) + e[1..];
    LastIndexAppend(q + [e[0]], e[1..], '.');
    assert LastIndex(q + [e[0]], '.') == |q|;
    assert base[|q|..] == e;
  }

  lemma {:induction false} LastIndexAppend(s: string, t: string, c: char)
    requires forall i :: 0 <= i < |t| ==> t[i] != c
    ensures LastIndex(s + t, c) == LastIndex(s, c)
    decreases |t|
  {
    if t == [] {
      assert s + t == s;
    } else {
      var u := s + t;
      assert u[|u| - 1] == t[|t| - 1];
      assert u[..|u| - 1] == s + t[..|t| - 1];
      LastIndexAppend(s, t[..|t| - 1], c);
    }
  }

  /** Pages are served as HTML and modules as JavaScript; everything else as plain text. */
  lemma ContentTypes(p: string)
    requires p != [] && p[|p| - 1] != '/'
    ensures Mime(Ext(p + ".html")) == "text/html"
    ensures Mime(Ext(p + ".mjs")) == "text/javascript"
  {
    ExtOfSuffix(p, ".html");
    ExtOfSuffix(p, ".mjs");
  }

  // ---------------------------------------------------------------- fileServer

  /** What the handler answers: a status and body, or a file streamed with its content
      type (status 200). */
  datatype Response = Status(code: int, body: string) | File(path: string, contentType: string)

  /** `fileServer(dir)` for one request URL. */
  function Route(url: string, dir: string): (r: Response)
    requires Absolute(dir)
    ensures r == Status(204, "") <==> url == FAVICON
    ensures r == Status(404, "404") <==> url != FAVICON && PathFrom(url, dir, ROOT).None?
    ensures r.File? ==> PathFrom(url, dir, ROOT) == Some(r.path) && url != FAVICON
    ensures r.File? ==> dir <= r.path && r.contentType == Mime(Ext(r.path))
    ensures r.Status? ==> r.code == 204 || r.code == 404
  {
    if url == FAVICON then Status(204, "")
    else
      var filepath := PathFrom(url, dir, ROOT);
      if filepath.None? then Status(404, "404")
      else File(filepath.value, Mime(Ext(filepath.value)))
  }

  /** The pathname `/` serves the root page. */
  lemma SlashServesRoot(dir: string)
    requires Absolute(dir)
    ensures PathFrom("/", dir, ROOT) == PathFrom(ROOT, dir, ROOT)
  {
    PathnameStops("/");
    PathnameStops(ROOT);
  }
}
