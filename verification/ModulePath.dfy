/** How a module turns a requested path into one below its root. Places are lists of names; the root
    and the request are texts, and tests that the program makes on texts are made on texts here too. */
module ModulePath {
  import opened Text

  type Path = seq<string>

  /** The text of an absolute path, from what stands between its slashes. */
  function Joined(p: Path): string {
    if p == [] then "" else "/" + (p[0] + Joined(p[1..]))
  }

  /** A place as text. */
  function Str(p: Path): string {
    if p == [] then "/" else Joined(p)
  }

  /** What stands between the slashes of a text. */
  function Parts(s: string): (r: seq<string>)
    ensures r != []
    decreases |s|
  {
    var slash := IndexOf(s, '/', 0);
    if slash == -1 then [s] else [s[..slash]] + Parts(s[slash + 1..])
  }

  predicate Skipped(part: string) {
    part == "" || part == "."
  }

  /** The lexical normal form of `done` followed by `rest`. */
  function Normal(done: Path, rest: seq<string>): Path
    decreases |rest|
  {
    if rest == [] then done
    else if Skipped(rest[0]) then Normal(done, rest[1..])
    else if rest[0] == ".." then Normal(if done == [] then [] else done[..|done| - 1], rest[1..])
    else Normal(done + [rest[0]], rest[1..])
  }

  function Names(parts: seq<string>): Path {
    if parts == [] then []
    else if Skipped(parts[0]) then Names(parts[1..])
    else [parts[0]] + Names(parts[1..])
  }

  // ---------- the file system ----------

  /** The symbolic links that lead somewhere: the place of each and the place the system's own
      resolution of it ends in. A dangling link is like any other name. */
  datatype Tree = Tree(links: map<Path, Path>)

  function Arrived(t: Tree, p: Path): Path {
    if p in t.links then t.links[p] else p
  }

  /** The canonical form of `done`, which is canonical, followed by `rest`. */
  function Canonical(t: Tree, done: Path, rest: Path): Path
    decreases |rest|
  {
    if rest == [] then done else Canonical(t, Arrived(t, done + [rest[0]]), rest[1..])
  }

  /** Whether the last name of a path is a link, wherever the names before it lead. */
  predicate IsLink(t: Tree, p: Path)
    requires p != []
  {
    Canonical(t, [], p[..|p| - 1]) + [p[|p| - 1]] in t.links
  }

  // ---------- the program ----------

  predicate Absolute(path: string) {
    path != "" && path[0] == '/'
  }

  type Root = s: string | Absolute(s) witness "/"

  datatype Settings = Settings(root: Root, allowSymlinks: bool)

  function RootParts(root: Root): (r: seq<string>)
    ensures r != []
  {
    Parts(root[1..])
  }

  /** The place of the root, for a root without a ".."; with one every test below has refused before
      this place matters. */
  function RootNames(root: Root): Path {
    Names(RootParts(root))
  }

  /** What the walk from `walk` along `parts` refuses: a ".." and a link. */
  predicate Blocked(t: Tree, walk: Path, parts: seq<string>)
    decreases |parts|
  {
    if parts == [] then false
    else if Skipped(parts[0]) then Blocked(t, walk, parts[1..])
    else parts[0] == ".." || IsLink(t, walk + [parts[0]]) || Blocked(t, walk + [parts[0]], parts[1..])
  }

  predicate StartsWith(s: string, prefix: string) {
    |s| >= |prefix| && s[..|prefix|] == prefix
  }

  /** Where a request starts from: an absolute one replaces the root. */
  function StartOf(root: Root, path: string): seq<string> {
    if Absolute(path) then [] else RootParts(root)
  }

  function Resolved(root: Root, path: string): Path {
    Normal([], StartOf(root, path) + Parts(path))
  }

  /** The normal form of a text that ends like this keeps a slash at its end. */
  predicate IsDirectory(parts: seq<string>) {
    parts != [] && (Skipped(parts[|parts| - 1]) || parts[|parts| - 1] == "..")
  }

  /** What stands between the slashes of a normal form. */
  function Written(names: Path, directory: bool): Path {
    if directory || names == [] then names + [""] else names
  }

  function ResolvedText(root: Root, path: string): string {
    Joined(Written(Resolved(root, path), IsDirectory(Parts(path))))
  }

  /** `None` stands for the empty answer. `fails` says whether canonicalising throws. */
  function Resolve(m: Settings, t: Tree, fails: bool, path: string): Option<string> {
    var text := ResolvedText(m.root, path);
    if path == "" then Some(m.root)
    else if !StartsWith(text, m.root) then None
    else if Find(text, "..", 0) != -1 then None
    else if !m.allowSymlinks && Blocked(t, Names(StartOf(m.root, path)), Parts(path)) then None
    else if fails then Some(text)
    else if !StartsWith(Str(Canonical(t, [], Resolved(m.root, path))), Str(Canonical(t, [], RootNames(m.root)))) then
      None
    else Some(Str(Canonical(t, [], Resolved(m.root, path))))
  }

  /** The walk that looks for links. */
  method Refuses(t: Tree, start: Path, parts: seq<string>) returns (r: bool)
    ensures r == Blocked(t, start, parts)
  {
    hide IsLink;
    var walk := start;
    var i := 0;
    while i < |parts|
      invariant 0 <= i <= |parts|
      invariant Blocked(t, walk, parts[i..]) == Blocked(t, start, parts)
    {
      if parts[i] != "." && parts[i] != "" {
        if parts[i] == ".." {
          return true;
        }
        walk := walk + [parts[i]];
        if IsLink(t, walk) {
          return true;
        }
      }
      i := i + 1;
    }
    r := false;
  }

  method ResolvePath(m: Settings, t: Tree, fails: bool, path: string) returns (r: Option<string>)
    ensures r == Resolve(m, t, fails, path)
  {
    hide Find, Normal, Parts, Canonical, Names, Written, Joined, Str, Blocked, IsDirectory;
    if path == "" {
      return Some(m.root);
    }
    var parts := Parts(path);
    var resolved := Normal([], StartOf(m.root, path) + parts);
    var resolvedStr := Joined(Written(resolved, IsDirectory(parts)));
    if |resolvedStr| < |m.root| || resolvedStr[..|m.root|] != m.root {
      return None;
    }
    if Find(resolvedStr, "..", 0) != -1 {
      return None;
    }
    if !m.allowSymlinks {
      var blocked := Refuses(t, Names(StartOf(m.root, path)), parts);
      if blocked {
        return None;
      }
    }
    if fails {
      return Some(resolvedStr);
    }
    var canonicalStr, baseCanonicalStr := Str(Canonical(t, [], resolved)), Str(Canonical(t, [], RootNames(m.root)));
    if |canonicalStr| < |baseCanonicalStr| || canonicalStr[..|baseCanonicalStr|] != baseCanonicalStr {
      return None;
    }
    r := Some(canonicalStr);
  }

  predicate IsTraversal(m: Settings, t: Tree, fails: bool, path: string) {
    Find(path, "..", 0) != -1 || Find(path, "/../", 0) != -1 || Find(path, "../", 0) == 0
      || Resolve(m, t, fails, path) == None
  }

  predicate IsSafe(m: Settings, t: Tree, fails: bool, path: string) {
    !IsTraversal(m, t, fails, path) && Resolve(m, t, fails, path) != None
  }

  // ---------- normal forms ----------

  lemma {:induction false} NormalNames(done: Path, parts: seq<string>)
    requires ".." !in parts
    ensures Normal(done, parts) == done + Names(parts)
    decreases |parts|
  {
    if parts != [] {
      if Skipped(parts[0]) {
        NormalNames(done, parts[1..]);
      } else {
        NormalNames(done + [parts[0]], parts[1..]);
        Regroup(done, [parts[0]], Names(parts[1..]));
      }
    }
  }

  lemma {:induction false} NamesAppend(a: seq<string>, b: seq<string>)
    ensures Names(a + b) == Names(a) + Names(b)
  {
    if a == [] {
      assert a + b == b;
    } else {
      assert (a + b)[1..] == a[1..] + b;
      NamesAppend(a[1..], b);
    }
  }

  lemma ResolvedIs(root: Root, path: string)
    requires ".." !in StartOf(root, path) && ".." !in Parts(path)
    ensures Resolved(root, path) == Names(StartOf(root, path)) + Names(Parts(path))
  {
    hide Parts, Names, Normal;
    NormalNames([], StartOf(root, path) + Parts(path));
    NamesAppend(StartOf(root, path), Parts(path));
  }

  /** A name as normal forms have it. */
  predicate ProperName(name: string) {
    !Skipped(name) && name != ".."
  }

  lemma {:induction false} NormalProper(done: Path, rest: seq<string>)
    requires forall i :: 0 <= i < |done| ==> ProperName(done[i])
    ensures forall i :: 0 <= i < |Normal(done, rest)| ==> ProperName(Normal(done, rest)[i])
    decreases |rest|
  {
    if rest != [] {
      if Skipped(rest[0]) {
        NormalProper(done, rest[1..]);
      } else if rest[0] == ".." {
        NormalProper(if done == [] then [] else done[..|done| - 1], rest[1..]);
      } else {
        NormalProper(done + [rest[0]], rest[1..]);
      }
    }
  }

  // ---------- printed forms ----------

  lemma {:induction false} JoinedAppend(a: Path, b: Path)
    ensures StartsWith(Joined(a + b), Joined(a))
  {
    if a != [] {
      assert (a + b)[1..] == a[1..] + b;
      JoinedAppend(a[1..], b);
    }
  }

  lemma StrAppend(a: Path, b: Path)
    ensures StartsWith(Str(a + b), Str(a))
  {
    JoinedAppend(a, b);
    if a == [] {
      assert a + b == b;
    }
  }

  predicate HasDots(name: string) {
    Find(name, "..", 0) != -1
  }

  lemma DotsAt(s: string, i: int)
    ensures MatchesAt(s, "..", i) <==> 0 <= i && i + 2 <= |s| && s[i] == '.' && s[i + 1] == '.'
  {
    var pattern := "..";
    assert pattern[0] == '.' && pattern[1] == '.';
  }

  lemma HasDotsIs(s: string)
    ensures HasDots(s) <==> exists i :: 0 <= i && i + 1 < |s| && s[i] == '.' && s[i + 1] == '.'
  {
    DotsAt(s, Find(s, "..", 0));
    if i :| 0 <= i && i + 1 < |s| && s[i] == '.' && s[i + 1] == '.' {
      DotsAt(s, i);
    }
  }

  /** Two dots in a printed path are two dots in one of its names. */
  lemma DotsSplit(name: string, rest: string)
    requires rest == "" || rest[0] == '/'
    ensures HasDots(name + rest) <==> HasDots(name) || HasDots(rest)
  {
    hide HasDots;
    var s := name + rest;
    HasDotsIs(s);
    HasDotsIs(name);
    HasDotsIs(rest);
    if HasDots(s) {
      var i :| 0 <= i && i + 1 < |s| && s[i] == '.' && s[i + 1] == '.';
      if i + 1 < |name| {
        assert name[i] == '.' && name[i + 1] == '.';
      } else if i >= |name| {
        assert rest[i - |name|] == '.' && rest[i - |name| + 1] == '.';
      }
    }
    if HasDots(name) {
      var i :| 0 <= i && i + 1 < |name| && name[i] == '.' && name[i + 1] == '.';
      assert s[i] == '.' && s[i + 1] == '.';
    }
    if HasDots(rest) {
      var i :| 0 <= i && i + 1 < |rest| && rest[i] == '.' && rest[i + 1] == '.';
      assert s[i + |name|] == '.' && s[i + |name| + 1] == '.';
    }
  }

  lemma SlashFirst(rest: string)
    ensures HasDots("/" + rest) <==> HasDots(rest)
  {
    hide HasDots;
    HasDotsIs("/" + rest);
    HasDotsIs(rest);
    var s := "/" + rest;
    if HasDots(s) {
      var i :| 0 <= i && i + 1 < |s| && s[i] == '.' && s[i + 1] == '.';
      assert rest[i - 1] == '.' && rest[i] == '.';
    }
    if HasDots(rest) {
      var i :| 0 <= i && i + 1 < |rest| && rest[i] == '.' && rest[i + 1] == '.';
      assert s[i + 1] == '.' && s[i + 2] == '.';
    }
  }

  lemma {:induction false} JoinedDots(p: Path)
    ensures HasDots(Joined(p)) <==> exists c :: c in p && HasDots(c)
  {
    hide HasDots;
    if p == [] {
      HasDotsIs("");
    } else {
      JoinedDots(p[1..]);
      SlashFirst(p[0] + Joined(p[1..]));
      DotsSplit(p[0], Joined(p[1..]));
      assert forall c :: c in p <==> c == p[0] || c in p[1..];
    }
  }

  lemma StrDots(p: Path)
    ensures HasDots(Str(p)) <==> exists c :: c in p && HasDots(c)
  {
    JoinedDots(p);
    HasDotsIs("/");
  }

  // ---------- links ----------

  lemma {:induction false} CanonicalAppend(t: Tree, done: Path, p: Path, name: string)
    ensures Canonical(t, done, p + [name]) == Arrived(t, Canonical(t, done, p) + [name])
    decreases |p|
  {
    if p == [] {
      assert p + [name] == [name];
    } else {
      assert (p + [name])[1..] == p[1..] + [name];
      CanonicalAppend(t, Arrived(t, done + [p[0]]), p[1..], name);
    }
  }

  /** Whether one of the places on the way is a link. */
  ghost predicate LinkOnWay(t: Tree, root: Path, names: Path) {
    exists k :: 0 < k <= |names| && IsLink(t, root + names[..k])
  }

  lemma TakeFirst(names: Path, k: nat)
    requires 0 < k <= |names|
    ensures names[..k] == [names[0]] + names[1..][..k - 1]
  {
    assert names[1..][..k - 1] == names[1..k];
  }

  lemma LinkFirst(t: Tree, root: Path, names: Path)
    requires names != []
    ensures LinkOnWay(t, root, names) <==> IsLink(t, root + [names[0]]) || LinkOnWay(t, root + [names[0]], names[1..])
  {
    hide IsLink;
    forall k | 0 < k <= |names| ensures root + names[..k] == root + [names[0]] + names[1..][..k - 1] {
      TakeFirst(names, k);
      Regroup(root, [names[0]], names[1..][..k - 1]);
    }
    assert root + names[..1] == root + [names[0]];
    if LinkOnWay(t, root, names) {
      var k :| 0 < k <= |names| && IsLink(t, root + names[..k]);
      if k > 1 {
        assert IsLink(t, root + [names[0]] + names[1..][..k - 1]);
      }
    }
    if LinkOnWay(t, root + [names[0]], names[1..]) {
      var k :| 0 < k <= |names[1..]| && IsLink(t, root + [names[0]] + names[1..][..k]);
      assert IsLink(t, root + names[..k + 1]);
    }
  }

  /** The walk refuses a ".." or a link on the way, and nothing else. */
  lemma {:induction false} BlockedIff(t: Tree, walk: Path, parts: seq<string>)
    ensures ".." in parts ==> Blocked(t, walk, parts)
    ensures ".." !in parts ==> (Blocked(t, walk, parts) <==> LinkOnWay(t, walk, Names(parts)))
    decreases |parts|
  {
    if parts != [] {
      hide IsLink, LinkOnWay;
      if Skipped(parts[0]) {
        BlockedIff(t, walk, parts[1..]);
      } else {
        BlockedIff(t, walk + [parts[0]], parts[1..]);
        LinkFirst(t, walk, [parts[0]] + Names(parts[1..]));
        assert ([parts[0]] + Names(parts[1..]))[1..] == Names(parts[1..]);
      }
    }
  }

  /** Where the way meets no link, canonicalising commutes with appending the names. */
  lemma {:induction false} CanonicalCommutes(t: Tree, root: Path, names: Path)
    requires !LinkOnWay(t, root, names)
    ensures Canonical(t, [], root + names) == Canonical(t, [], root) + names
    decreases |names|
  {
    if names == [] {
      assert root + names == root;
    } else {
      var next := root + [names[0]];
      LinkFirst(t, root, names);
      assert next[..|next| - 1] == root;
      CanonicalAppend(t, [], root, names[0]);
      hide Canonical, LinkOnWay;
      CanonicalCommutes(t, next, names[1..]);
      Regroup(root, [names[0]], names[1..]);
      Regroup(Canonical(t, [], root), [names[0]], names[1..]);
      assert [names[0]] + names[1..] == names;
    }
  }

  // ---------- what the comparison of texts means ----------

  predicate NoSlash(part: string) {
    '/' !in part
  }

  predicate Slashless(p: Path) {
    forall i :: 0 <= i < |p| ==> NoSlash(p[i])
  }

  lemma UpToSlash(s: string)
    ensures NoSlash(if IndexOf(s, '/', 0) == -1 then s else s[..IndexOf(s, '/', 0)])
  {
    hide IndexOf;
    BeforeIndex(s, '/', 0);
  }

  lemma {:induction false} PartsSlashless(s: string)
    ensures Slashless(Parts(s))
    decreases |s|
  {
    hide IndexOf, NoSlash;
    UpToSlash(s);
    var slash := IndexOf(s, '/', 0);
    if slash != -1 {
      PartsSlashless(s[slash + 1..]);
    }
  }

  lemma JoinedOne(name: string)
    ensures Joined([name]) == "/" + name
  {
  }

  lemma JoinedMore(name: string, rest: seq<string>)
    ensures Joined([name] + rest) == "/" + (name + Joined(rest))
  {
    assert ([name] + rest)[1..] == rest;
  }

  lemma {:induction false} JoinedParts(s: string)
    ensures Joined(Parts(s)) == "/" + s
    decreases |s|
  {
    hide IndexOf, Joined;
    var slash := IndexOf(s, '/', 0);
    if slash == -1 {
      JoinedOne(s);
    } else {
      JoinedParts(s[slash + 1..]);
      JoinedMore(s[..slash], Parts(s[slash + 1..]));
      assert s == s[..slash] + ("/" + s[slash + 1..]);
    }
  }

  lemma RootText(root: Root)
    ensures Joined(RootParts(root)) == root
  {
    JoinedParts(root[1..]);
    assert "/" + root[1..] == root;
  }

  lemma {:induction false} NormalSlashless(done: Path, rest: seq<string>)
    requires Slashless(done) && Slashless(rest)
    ensures Slashless(Normal(done, rest))
    decreases |rest|
  {
    if rest != [] {
      NormalSlashless(
        if Skipped(rest[0]) then done
        else if rest[0] == ".." then if done == [] then [] else done[..|done| - 1]
        else done + [rest[0]], rest[1..]);
    }
  }

  /** What the test on characters means for names: all but the last of the root's agree, and the last
      is only a beginning. */
  predicate BelowOrBeside(p: Path, root: Path) {
    root == [] || (|root| <= |p| && p[..|root| - 1] == root[..|root| - 1]
      && StartsWith(p[|root| - 1], root[|root| - 1]))
  }

  lemma SlashCut(a: string, x: string, b: string, y: string)
    requires '/' !in a && '/' !in b && x != "" && x[0] == '/' && (y == "" || y[0] == '/')
    ensures StartsWith(b + y, a + x) <==> a == b && StartsWith(y, x)
  {
    if StartsWith(b + y, a + x) {
      assert (b + y)[|a|] == (a + x)[|a|] == '/';
      NameEnds(a, b, y, a + x);
      assert forall i :: 0 <= i < |b| ==> (b + y)[i] == b[i] && b[i] in b;
      assert |a| == |b|;
      assert a == (a + x)[..|a|] == (b + y)[..|a|] == b;
      assert y[..|x|] == (b + y)[|b|..|b| + |x|] == (a + x)[|a|..];
    }
    if a == b && StartsWith(y, x) {
      assert (b + y)[..|a| + |x|] == b + y[..|x|];
    }
  }

  /** A name cannot reach over a slash. */
  lemma NameEnds(a: string, b: string, y: string, prefix: string)
    requires '/' !in a && (y == "" || y[0] == '/')
    requires |a| <= |prefix| && prefix[..|a|] == a && StartsWith(b + y, prefix)
    ensures |a| <= |b| && b[..|a|] == a
  {
    assert forall i :: 0 <= i < |a| ==> (b + y)[i] == (b + y)[..|prefix|][i] == prefix[..|a|][i] == a[i] && a[i] in a;
    assert forall i :: 0 <= i < |b| ==> (b + y)[i] == b[i];
    assert y != "" ==> (b + y)[|b|] == '/';
  }

  lemma NoSlashCut(a: string, b: string, y: string)
    requires '/' !in a && (y == "" || y[0] == '/')
    ensures StartsWith(b + y, a) <==> StartsWith(b, a)
  {
    if StartsWith(b + y, a) {
      assert a[..|a|] == a;
      NameEnds(a, b, y, a);
    }
    if StartsWith(b, a) {
      assert |b + y| >= |a|;
      assert (b + y)[..|a|] == b[..|a|];
    }
  }

  lemma SlashBoth(s: string, t: string)
    ensures StartsWith("/" + s, "/" + t) <==> StartsWith(s, t)
  {
    if |s| >= |t| {
      assert ("/" + s)[..1 + |t|] == "/" + s[..|t|];
      assert ("/" + t)[1..] == t && ("/" + s[..|t|])[1..] == s[..|t|];
    }
  }

  lemma {:induction false} JoinedStartsIff(p: Path, root: Path)
    requires root != [] && Slashless(p) && Slashless(root)
    ensures StartsWith(Joined(p), Joined(root)) <==> BelowOrBeside(p, root)
  {
    if p != [] {
      var x, y := Joined(root[1..]), Joined(p[1..]);
      SlashBoth(p[0] + y, root[0] + x);
      if |root| == 1 {
        assert root[0] + x == root[0];
        NoSlashCut(root[0], p[0], y);
      } else {
        SlashCut(root[0], x, p[0], y);
        JoinedStartsIff(p[1..], root[1..]);
        BesideMore(p, root);
      }
    }
  }

  lemma BesideMore(p: Path, root: Path)
    requires |root| > 1 && p != []
    ensures BelowOrBeside(p, root) <==> root[0] == p[0] && BelowOrBeside(p[1..], root[1..])
  {
    if |root| <= |p| {
      assert p[..|root| - 1] == [p[0]] + p[1..][..|root| - 2];
      assert root[..|root| - 1] == [root[0]] + root[1..][..|root| - 2];
      assert ([p[0]] + p[1..][..|root| - 2])[1..] == p[1..][..|root| - 2];
      assert ([root[0]] + root[1..][..|root| - 2])[1..] == root[1..][..|root| - 2];
    }
  }

  /** Names as they stand between slashes. */
  predicate ProperNames(p: Path) {
    Slashless(p) && forall i :: 0 <= i < |p| ==> p[i] != ""
  }

  lemma StrStartsIff(p: Path, root: Path)
    requires ProperNames(p) && ProperNames(root)
    ensures StartsWith(Str(p), Str(root)) <==> BelowOrBeside(p, root)
  {
    if root != [] {
      JoinedStartsIff(p, root);
      assert |Joined(root)| > 1;
    }
  }

  /** The first test of a request, on names. */
  lemma TextStartsIff(root: Root, path: string)
    ensures StartsWith(ResolvedText(root, path), root)
            <==> BelowOrBeside(Written(Resolved(root, path), IsDirectory(Parts(path))), RootParts(root))
  {
    hide Parts, Normal, Joined, BelowOrBeside, IsDirectory;
    RootText(root);
    PartsSlashless(path);
    PartsSlashless(root[1..]);
    NormalSlashless([], StartOf(root, path) + Parts(path));
    JoinedStartsIff(Written(Resolved(root, path), IsDirectory(Parts(path))), RootParts(root));
  }

  lemma {:induction false} PartsDots(path: string)
    ensures HasDots(path) <==> exists c :: c in Parts(path) && HasDots(c)
    decreases |path|
  {
    hide HasDots, IndexOf;
    var slash := IndexOf(path, '/', 0);
    if slash == -1 {
      assert Parts(path) == [path];
      assert path in Parts(path);
    } else {
      var first, rest := path[..slash], path[slash + 1..];
      PartsDots(rest);
      assert path == first + ("/" + rest);
      DotsSplit(first, "/" + rest);
      SlashFirst(rest);
      assert Parts(path) == [first] + Parts(rest);
      assert forall c :: c in Parts(path) <==> c == first || c in Parts(rest);
    }
  }

  lemma {:induction false} NamesAre(parts: seq<string>)
    ensures forall c :: c in Names(parts) <==> c in parts && !Skipped(c)
  {
    if parts != [] {
      NamesAre(parts[1..]);
      assert forall c :: c in parts <==> c == parts[0] || c in parts[1..];
    }
  }

  lemma DotNames()
    ensures HasDots("..") && !HasDots(".") && !HasDots("")
  {
    HasDotsIs("..");
    HasDotsIs(".");
    HasDotsIs("");
    assert ".."[0] == '.' && ".."[1] == '.';
  }

  lemma RootDots(root: Root)
    ensures HasDots(root) <==> exists c :: c in RootParts(root) && HasDots(c)
  {
    hide HasDots, Parts;
    PartsDots(root[1..]);
    SlashFirst(root[1..]);
    assert "/" + root[1..] == root;
  }

  lemma WrittenDots(names: Path, directory: bool)
    ensures HasDots(Joined(Written(names, directory))) <==> exists c :: c in names && HasDots(c)
  {
    hide HasDots, Joined;
    JoinedDots(Written(names, directory));
    DotNames();
  }

  lemma PrefixDots(s: string, prefix: string)
    requires StartsWith(s, prefix) && HasDots(prefix)
    ensures HasDots(s)
  {
    hide HasDots;
    HasDotsIs(s);
    HasDotsIs(prefix);
    var i :| 0 <= i && i + 1 < |prefix| && prefix[i] == '.' && prefix[i + 1] == '.';
    assert s[i] == s[..|prefix|][i] && s[i + 1] == s[..|prefix|][i + 1];
  }

  // ---------- how the root is written ----------

  function LastPart(root: Root): string {
    RootParts(root)[|RootParts(root)| - 1]
  }

  /** A root without two dots in a row and, before what follows its last slash, without an empty or a
      "." part: no other root serves any file. */
  predicate Tidy(root: Root) {
    !HasDots(root) && forall i :: 0 <= i < |RootParts(root)| - 1 ==> !Skipped(RootParts(root)[i])
  }

  lemma {:induction false} NamesBut(parts: seq<string>)
    requires parts != [] && forall i :: 0 <= i < |parts| - 1 ==> !Skipped(parts[i])
    ensures Names(parts) == parts[..|parts| - 1] + if Skipped(parts[|parts| - 1]) then [] else [parts[|parts| - 1]]
  {
    if |parts| > 1 {
      NamesBut(parts[1..]);
      assert parts[1..][..|parts| - 2] == parts[1..|parts| - 1];
      assert [parts[0]] + parts[1..|parts| - 1] == parts[..|parts| - 1];
    } else {
      assert parts[1..] == [] && parts[..|parts| - 1] == [];
    }
  }

  lemma TidyNames(root: Root)
    requires Tidy(root)
    ensures var q := RootParts(root);
            RootNames(root) == if Skipped(LastPart(root)) then q[..|q| - 1] else q
  {
    hide Names, Parts, HasDots, Skipped;
    var q := RootParts(root);
    NamesBut(q);
    assert q[..|q| - 1] + [q[|q| - 1]] == q;
  }

  lemma WrittenProper(root: Root, path: string)
    ensures var w := Written(Resolved(root, path), IsDirectory(Parts(path)));
            w != [] && forall i :: 0 <= i < |w| - 1 ==> ProperName(w[i])
  {
    hide Normal, Parts, ProperName;
    NormalProper([], StartOf(root, path) + Parts(path));
  }

  // ---------- what a request resolves to ----------

  /** Whether the root's text begins that of the request, for requests without a ".." part. */
  predicate Shown(root: Root, path: string) {
    var names := Names(Parts(path));
    if Absolute(path) then BelowOrBeside(Written(names, IsDirectory(Parts(path))), RootParts(root))
    else Tidy(root) && (LastPart(root) == "." ==> names != [] && StartsWith(names[0], "."))
  }

  /** The requests that are served when links are forbidden: no part is "..", no name on the way to
      the file holds two dots in a row, no place that the names lead through is a link, and the texts
      agree. */
  ghost predicate Served(m: Settings, t: Tree, fails: bool, path: string) {
    var start, names := Names(StartOf(m.root, path)), Names(Parts(path));
    && ".." !in Parts(path)
    && NoDots(start + names)
    && !LinkOnWay(t, start, names)
    && Shown(m.root, path)
    && (Absolute(path) && !fails ==> StartsWith(Str(names), Str(Canonical(t, [], RootNames(m.root)))))
  }

  lemma NamesProper(parts: seq<string>)
    ensures forall i :: 0 <= i < |Names(parts)| ==> !Skipped(Names(parts)[i])
  {
    NamesAre(parts);
    assert forall i :: 0 <= i < |Names(parts)| ==> Names(parts)[i] in Names(parts);
  }

  lemma {:induction false} AllSkipped(parts: seq<string>)
    requires parts != [] && Names(parts) == []
    ensures IsDirectory(parts)
  {
    if |parts| > 1 {
      AllSkipped(parts[1..]);
    }
  }

  /** A relative request below a root without dots shows the root exactly when `Shown` says so. */
  lemma RelativeShown(root: Root, path: string)
    requires !Absolute(path) && ".." !in Parts(path) && !HasDots(root)
    ensures Resolved(root, path) == RootNames(root) + Names(Parts(path))
    ensures StartsWith(ResolvedText(root, path), root) <==> Shown(root, path)
  {
    hide HasDots, Parts, StartsWith, IsDirectory, Names, Normal, ResolvedText, Resolved, Written, Shown;
    RootDots(root);
    DotNames();
    ResolvedIs(root, path);
    TextStartsIff(root, path);
    var names, w := Names(Parts(path)), Written(Resolved(root, path), IsDirectory(Parts(path)));
    if StartsWith(ResolvedText(root, path), root) {
      ShownTidy(root, path);
    }
    if Tidy(root) {
      TidyShown(root, path);
    }
    assert Shown(root, path) ==> Tidy(root) by {
      ShownIsTidy(root, path);
    }
  }

  lemma ShownIsTidy(root: Root, path: string)
    requires !Absolute(path)
    ensures Shown(root, path) ==> Tidy(root)
  {
    hide Tidy, Names, Parts;
  }

  lemma ShownTidy(root: Root, path: string)
    requires !HasDots(root) && StartsWith(ResolvedText(root, path), root)
    ensures Tidy(root)
  {
    hide HasDots, Parts, Resolved, Written, StartsWith, IsDirectory, ResolvedText;
    TextStartsIff(root, path);
    WrittenProper(root, path);
    var w, q := Written(Resolved(root, path), IsDirectory(Parts(path))), RootParts(root);
    forall i | 0 <= i < |q| - 1 ensures !Skipped(q[i]) {
      assert q[i] == q[..|q| - 1][i] == w[..|q| - 1][i] == w[i];
    }
  }

  /** The texts of a relative request and of a tidy root, place by place. */
  lemma TidyShown(root: Root, path: string)
    requires !Absolute(path) && Tidy(root) && Resolved(root, path) == RootNames(root) + Names(Parts(path))
    ensures BelowOrBeside(Written(Resolved(root, path), IsDirectory(Parts(path))), RootParts(root))
            <==> Shown(root, path)
  {
    hide HasDots, Parts, Names, Resolved, StartsWith, IsDirectory, RootParts, RootNames, Tidy;
    TidyNames(root);
    NamesProper(Parts(path));
    if Names(Parts(path)) == [] {
      AllSkipped(Parts(path));
    }
    TidyPlaces(RootParts(root), Names(Parts(path)), IsDirectory(Parts(path)));
  }

  lemma TidyPlaces(q: seq<string>, names: Path, directory: bool)
    requires q != [] && (names == [] ==> directory) && forall i :: 0 <= i < |names| ==> !Skipped(names[i])
    ensures var last := q[|q| - 1];
            var w := Written((if Skipped(last) then q[..|q| - 1] else q) + names, directory);
            BelowOrBeside(w, q) <==> (last == "." ==> names != [] && StartsWith(names[0], "."))
  {
    var n := |q| - 1;
    var last := q[n];
    var w := Written((if Skipped(last) then q[..n] else q) + names, directory);
    assert |w| > n && w[..n] == q[..n];
    if Skipped(last) {
      assert w[n] == if names == [] then "" else names[0];
    } else {
      assert w[n] == last;
    }
  }

  /** The two tests on the text of a request without a ".." part. */
  lemma TextTests(root: Root, path: string)
    requires ".." !in Parts(path)
    ensures StartsWith(ResolvedText(root, path), root) && Find(ResolvedText(root, path), "..", 0) == -1
            <==> Shown(root, path) && NoDots(Names(StartOf(root, path)) + Names(Parts(path)))
    ensures Shown(root, path) ==> Resolved(root, path) == Names(StartOf(root, path)) + Names(Parts(path))
  {
    hide HasDots, Parts, StartsWith, IsDirectory, Names, Normal, Resolved, Written, Shown, Find, Joined;
    WrittenDots(Resolved(root, path), IsDirectory(Parts(path)));
    DotsFound(ResolvedText(root, path));
    if Absolute(path) {
      AbsoluteShown(root, path);
    } else if HasDots(root) {
      ShownIsTidy(root, path);
      if StartsWith(ResolvedText(root, path), root) {
        PrefixDots(ResolvedText(root, path), root);
      }
    } else {
      RelativeShown(root, path);
    }
  }

  predicate NoDots(p: Path) {
    forall c :: c in p ==> !HasDots(c)
  }

  lemma DotsFound(s: string)
    ensures HasDots(s) <==> Find(s, "..", 0) != -1
  {
    hide Find;
  }

  lemma AbsoluteShown(root: Root, path: string)
    requires Absolute(path) && ".." !in Parts(path)
    ensures Names(StartOf(root, path)) == []
    ensures Resolved(root, path) == Names(Parts(path))
    ensures StartsWith(ResolvedText(root, path), root) <==> Shown(root, path)
  {
    hide Parts, StartsWith, IsDirectory, Normal, Resolved, Written, BelowOrBeside;
    ResolvedIs(root, path);
    TextStartsIff(root, path);
    assert [] + Names(Parts(path)) == Names(Parts(path));
  }

  /** The last test, where the way meets no link. */
  lemma LastTest(m: Settings, t: Tree, path: string)
    requires !LinkOnWay(t, Names(StartOf(m.root, path)), Names(Parts(path)))
    ensures var start, names := Names(StartOf(m.root, path)), Names(Parts(path));
            && Canonical(t, [], start + names) == Canonical(t, [], start) + names
            && (StartsWith(Str(Canonical(t, [], start + names)), Str(Canonical(t, [], RootNames(m.root))))
                <==> (Absolute(path) ==> StartsWith(Str(names), Str(Canonical(t, [], RootNames(m.root))))))
  {
    hide Parts, Names, Str, StartsWith, LinkOnWay;
    var start, names := Names(StartOf(m.root, path)), Names(Parts(path));
    CanonicalCommutes(t, start, names);
    StrAppend(Canonical(t, [], start), names);
    if Absolute(path) {
      NoNames();
      assert [] + names == names;
    }
  }

  lemma NoNames()
    ensures Names([]) == []
  {
  }

  /** With links forbidden, a request is served exactly under these conditions, for every root, and then
      it is the canonical start followed by the names in the request. */
  lemma ResolveExactly(m: Settings, t: Tree, fails: bool, path: string)
    requires path != "" && !m.allowSymlinks
    ensures var start, names := Names(StartOf(m.root, path)), Names(Parts(path));
            Resolve(m, t, fails, path)
            == if !Served(m, t, fails, path) then None
               else if fails then Some(Joined(Written(start + names, IsDirectory(Parts(path)))))
               else Some(Str(Canonical(t, [], start) + names))
  {
    hide Parts, Names, Normal, Resolved, Str, Canonical, Blocked, LinkOnWay, StartsWith, Find, NoDots, Written,
      Joined, Shown, IsDirectory;
    var start, names := Names(StartOf(m.root, path)), Names(Parts(path));
    BlockedIff(t, start, Parts(path));
    if ".." !in Parts(path) && !LinkOnWay(t, start, names) {
      TextTests(m.root, path);
      LastTest(m, t, path);
    }
  }

  // ---------- what the safety check adds ----------

  /** The other two patterns hold the first. */
  lemma NoLongerDots(path: string)
    ensures Find(path, "/../", 0) != -1 ==> HasDots(path)
    ensures Find(path, "../", 0) == 0 ==> HasDots(path)
  {
    HasDotsIs(path);
    var i := Find(path, "/../", 0);
    MatchChar(path, "/../", i, 1);
    MatchChar(path, "/../", i, 2);
    MatchChar(path, "../", 0, 0);
    MatchChar(path, "../", 0, 1);
  }

  /** What the safety check adds to resolving, for every request: no two dots in a row. */
  lemma SafeIff(m: Settings, t: Tree, fails: bool, path: string)
    ensures IsSafe(m, t, fails, path) <==> !HasDots(path) && Resolve(m, t, fails, path) != None
  {
    hide Resolve;
    NoLongerDots(path);
  }

  lemma NoUp(path: string)
    requires !HasDots(path)
    ensures ".." !in Parts(path)
  {
    hide HasDots, Parts;
    PartsDots(path);
    DotNames();
  }

  lemma ServedHasNoDots(m: Settings, t: Tree, fails: bool, path: string)
    requires Served(m, t, fails, path)
    ensures !HasDots(path)
  {
    hide HasDots, Parts, Names, LinkOnWay, StartsWith, Shown;
    PartsDots(path);
    NamesAre(Parts(path));
    DotNames();
  }

  /** With links forbidden that is nothing: the two agree on every request. */
  lemma SafeIsResolvable(m: Settings, t: Tree, fails: bool, path: string)
    requires path != "" && !m.allowSymlinks
    ensures IsSafe(m, t, fails, path) <==> Served(m, t, fails, path)
    ensures IsSafe(m, t, fails, path) <==> Resolve(m, t, fails, path) != None
  {
    hide IsSafe, Served, Resolve;
    SafeIff(m, t, fails, path);
    ResolveExactly(m, t, fails, path);
    if Served(m, t, fails, path) {
      ServedHasNoDots(m, t, fails, path);
    }
  }

  // ---------- containment ----------

  predicate Below(p: Path, root: Path) {
    |root| <= |p| && p[..|root|] == root
  }

  /** The root that the last test compares with, and the place that is served. */
  function Base(m: Settings, t: Tree, fails: bool): Path {
    if fails then RootNames(m.root) else Canonical(t, [], RootNames(m.root))
  }

  function Place(m: Settings, t: Tree, fails: bool, path: string): Path {
    if fails then Resolved(m.root, path) else Canonical(t, [], Resolved(m.root, path))
  }

  /** What is known of a safe request in any mode. */
  lemma SafeMeans(m: Settings, t: Tree, fails: bool, path: string)
    requires path != "" && IsSafe(m, t, fails, path)
    ensures ".." !in Parts(path) && Shown(m.root, path)
    ensures Resolved(m.root, path) == Names(StartOf(m.root, path)) + Names(Parts(path))
    ensures !m.allowSymlinks ==> !LinkOnWay(t, Names(StartOf(m.root, path)), Names(Parts(path)))
  {
    SafeIff(m, t, fails, path);
    hide Parts, Names, Normal, Resolved, Str, Canonical, Blocked, LinkOnWay, StartsWith, Find, NoDots, Written,
      Joined, Shown, IsDirectory, IsSafe, HasDots, ResolvedText;
    NoUp(path);
    TextTests(m.root, path);
    BlockedIff(t, Names(StartOf(m.root, path)), Parts(path));
  }

  /** A safe relative request whose way meets no link stays below the root, also where links are allowed. */
  lemma RelativeStaysBelow(m: Settings, t: Tree, fails: bool, path: string)
    requires path != "" && !Absolute(path) && IsSafe(m, t, fails, path)
    requires !m.allowSymlinks || fails || !LinkOnWay(t, RootNames(m.root), Names(Parts(path)))
    ensures Place(m, t, fails, path) == Base(m, t, fails) + Names(Parts(path))
    ensures Below(Place(m, t, fails, path), Base(m, t, fails))
  {
    hide IsSafe, Shown, Resolved, LinkOnWay, Parts, Names, Canonical;
    SafeMeans(m, t, fails, path);
    if !fails {
      CanonicalCommutes(t, RootNames(m.root), Names(Parts(path)));
    }
  }

  lemma LinkLater(t: Tree, names: Path, k: nat)
    requires k <= |names| && !LinkOnWay(t, [], names)
    ensures !LinkOnWay(t, [], names[..k])
  {
    hide IsLink;
    forall i | 0 < i <= k ensures !IsLink(t, [] + names[..k][..i]) {
      assert names[..k][..i] == names[..i];
    }
  }

  lemma NoLinkCanonical(t: Tree, names: Path)
    requires !LinkOnWay(t, [], names)
    ensures Canonical(t, [], names) == names
  {
    hide LinkOnWay;
    CanonicalCommutes(t, [], names);
    assert [] + names == names;
  }

  /** An absolute request is served as it stands when links are forbidden. So it stays below the root
      exactly when its names do; where the root is reached without a link, exactly when the root is
      written as a directory or the name at its last place is its own. */
  lemma AbsoluteContainedIff(m: Settings, t: Tree, fails: bool, path: string)
    requires Absolute(path) && !m.allowSymlinks && IsSafe(m, t, fails, path)
    ensures var names, base, n := Names(Parts(path)), Base(m, t, fails), |RootParts(m.root)| - 1;
            && Place(m, t, fails, path) == names && |names| >= n
            && (!Skipped(LastPart(m.root)) ==> |names| > n)
            && (base == RootNames(m.root) ==>
                  (Below(names, base) <==> Skipped(LastPart(m.root)) || names[n] == LastPart(m.root)))
  {
    AbsolutePlace(m, t, fails, path);
    hide IsSafe, Resolved, LinkOnWay, Parts, Names, Canonical, Tidy, HasDots, RootParts;
    SafeIsTidy(m, t, fails, path);
    TidyNames(m.root);
    NamesProper(Parts(path));
    LastDecides(Names(Parts(path)), IsDirectory(Parts(path)), RootParts(m.root));
  }

  lemma AbsolutePlace(m: Settings, t: Tree, fails: bool, path: string)
    requires Absolute(path) && !m.allowSymlinks && IsSafe(m, t, fails, path)
    ensures Place(m, t, fails, path) == Names(Parts(path)) && Shown(m.root, path)
    ensures !LinkOnWay(t, [], Names(Parts(path)))
  {
    hide IsSafe, Shown, Resolved, LinkOnWay, Parts, Names, Canonical;
    SafeMeans(m, t, fails, path);
    NoNames();
    assert [] + Names(Parts(path)) == Names(Parts(path));
    NoLinkCanonical(t, Names(Parts(path)));
  }

  lemma SafeIsTidy(m: Settings, t: Tree, fails: bool, path: string)
    requires path != "" && Resolve(m, t, fails, path).Some?
    ensures Tidy(m.root)
  {
    hide HasDots, Parts, Resolved, StartsWith, Tidy, ResolvedText, Find, Blocked, Canonical, Str;
    DotsFound(ResolvedText(m.root, path));
    if HasDots(m.root) {
      PrefixDots(ResolvedText(m.root, path), m.root);
    }
    ShownTidy(m.root, path);
  }

  /** The names of a request whose text begins with that of a tidy root. */
  lemma LastDecides(names: Path, directory: bool, q: seq<string>)
    requires q != [] && BelowOrBeside(Written(names, directory), q)
    ensures var n := |q| - 1;
            && |names| >= n && names[..n] == q[..n]
            && (!Skipped(q[n]) ==> |names| > n && StartsWith(names[n], q[n]) && (Below(names, q) <==> names[n] == q[n]))
  {
    var n, w := |q| - 1, Written(names, directory);
    assert w[..n] == q[..n] && forall i :: 0 <= i < n && i < |names| ==> w[i] == names[i];
    assert names[..n] == w[..n];
    if |names| > n {
      assert names[..n + 1] == names[..n] + [names[n]] && q == q[..n] + [q[n]];
      assert q[..n + 1] == q;
    }
  }

  /** Whatever is served, in any mode, lies below the root or directly beside it, under a name that
      begins with the root's. */
  lemma ServedIsBelowOrBeside(m: Settings, t: Tree, fails: bool, path: string)
    requires path != "" && Resolve(m, t, fails, path).Some? && ProperTree(t)
    ensures BelowOrBeside(Place(m, t, fails, path), Base(m, t, fails))
  {
    hide Str, Canonical, Resolved, Blocked, Find, Parts, ProperNames, ProperTree, BelowOrBeside, Names, RootParts,
      IsDirectory, Tidy, HasDots, StartsWith, ResolvedText;
    if fails {
      SafeIsTidy(m, t, fails, path);
      TidyNames(m.root);
      TextStartsIff(m.root, path);
      LastDecides(Resolved(m.root, path), IsDirectory(Parts(path)), RootParts(m.root));
      BesideTidy(Resolved(m.root, path), RootParts(m.root));
    } else {
      PlacesProper(m, t, path);
      StrStartsIff(Place(m, t, fails, path), Base(m, t, fails));
    }
  }

  lemma BesideTidy(names: Path, q: seq<string>)
    requires var n := |q| - 1; q != [] && |names| >= n && names[..n] == q[..n]
    requires !Skipped(q[|q| - 1]) ==> |names| >= |q| && StartsWith(names[|q| - 1], q[|q| - 1])
    ensures BelowOrBeside(names, if Skipped(q[|q| - 1]) then q[..|q| - 1] else q)
  {
    hide Skipped;
    var n := |q| - 1;
    if Skipped(q[n]) && n > 0 {
      assert names[..n - 1] == names[..n][..n - 1] && q[..n][..n - 1] == q[..n - 1];
      assert names[n - 1] == names[..n][n - 1] == q[..n][n - 1];
    }
  }

  ghost predicate ProperTree(t: Tree) {
    forall p :: p in t.links ==> ProperNames(t.links[p])
  }

  lemma {:induction false} CanonicalProper(t: Tree, done: Path, rest: Path)
    requires ProperTree(t) && ProperNames(done) && ProperNames(rest)
    ensures ProperNames(Canonical(t, done, rest))
    decreases |rest|
  {
    if rest != [] {
      CanonicalProper(t, Arrived(t, done + [rest[0]]), rest[1..]);
    }
  }

  lemma NamesSlashless(s: string)
    ensures ProperNames(Names(Parts(s)))
  {
    hide Parts, NoSlash;
    PartsSlashless(s);
    NamesAre(Parts(s));
    var names := Names(Parts(s));
    forall i | 0 <= i < |names| ensures NoSlash(names[i]) && names[i] != "" {
      assert names[i] in names;
    }
  }

  lemma RootProper(root: Root)
    ensures ProperNames(RootNames(root))
  {
    NamesSlashless(root[1..]);
  }

  lemma PlacesProper(m: Settings, t: Tree, path: string)
    requires ProperTree(t)
    ensures ProperNames(Base(m, t, false)) && ProperNames(Place(m, t, false, path))
  {
    hide Parts, Names, Normal, Canonical, NoSlash, ProperTree;
    RootProper(m.root);
    PartsSlashless(path);
    PartsSlashless(m.root[1..]);
    NormalSlashless([], StartOf(m.root, path) + Parts(path));
    NormalProper([], StartOf(m.root, path) + Parts(path));
    CanonicalProper(t, [], RootNames(m.root));
    CanonicalProper(t, [], Resolved(m.root, path));
  }

  // ---------- which modules contain what they serve ----------

  /** Every safe request of the module stays below its root, whatever the file system is like. */
  ghost predicate KeepsWithin(m: Settings) {
    forall t, fails, path :: path != "" && IsSafe(m, t, fails, path) ==> StaysBelow(m, t, fails, path)
  }

  predicate StaysBelow(m: Settings, t: Tree, fails: bool, path: string) {
    Below(Place(m, t, fails, path), Base(m, t, fails))
  }

  /** The tests on a configuration that decide it: the root is the top of the tree, or it is written in a
      way that serves no file at all, or links are forbidden and it ends in a slash or in "/.". */
  predicate Containing(m: Settings) {
    RootNames(m.root) == [] || !Tidy(m.root) || (!m.allowSymlinks && Skipped(LastPart(m.root)))
  }

  lemma ContainingStays(m: Settings, t: Tree, fails: bool, path: string)
    requires Containing(m) && path != "" && IsSafe(m, t, fails, path)
    ensures StaysBelow(m, t, fails, path)
  {
    hide IsSafe, Tidy, Parts, Names, Resolved, RootNames, Canonical, HasDots;
    SafeIff(m, t, fails, path);
    SafeIsTidy(m, t, fails, path);
    if RootNames(m.root) == [] {
      CanonicalRoot(t);
    } else if Absolute(path) {
      DirectoryContains(m, t, fails, path);
    } else {
      RelativeStaysBelow(m, t, fails, path);
    }
  }

  lemma CanonicalRoot(t: Tree)
    ensures Canonical(t, [], []) == []
  {
  }

  lemma DirectoryContains(m: Settings, t: Tree, fails: bool, path: string)
    requires Absolute(path) && !m.allowSymlinks && IsSafe(m, t, fails, path) && Skipped(LastPart(m.root))
    ensures StaysBelow(m, t, fails, path)
  {
    hide IsSafe, Tidy, Parts, Names, Resolved, RootParts, Canonical, HasDots, LinkOnWay;
    AbsolutePlace(m, t, fails, path);
    SafeIff(m, t, fails, path);
    SafeIsTidy(m, t, fails, path);
    TidyNames(m.root);
    LastDecides(Names(Parts(path)), IsDirectory(Parts(path)), RootParts(m.root));
    LinkLater(t, Names(Parts(path)), |RootParts(m.root)| - 1);
    NoLinkCanonical(t, RootNames(m.root));
  }

  /** A root that does not end in a slash has siblings that are served: an absolute request for a name that
      only begins with the root's, and for what is below it, passes every test, links or no links. */
  lemma SiblingServed(m: Settings, t: Tree, fails: bool, path: string, sibling: string, rest: Path)
    requires Absolute(path) && Tidy(m.root) && !Skipped(LastPart(m.root))
    requires StartsWith(sibling, LastPart(m.root)) && sibling != LastPart(m.root) && !HasDots(sibling)
    requires Names(Parts(path)) == RootNames(m.root)[..|RootNames(m.root)| - 1] + [sibling] + rest && NoDots(rest)
    requires !LinkOnWay(t, [], Names(Parts(path))) && !LinkOnWay(t, [], RootNames(m.root))
    ensures IsSafe(m, t, fails, path) && Place(m, t, fails, path) == Names(Parts(path))
    ensures !StaysBelow(m, t, fails, path)
  {
    hide IsSafe, Parts, Names, Resolved, RootParts, Canonical, HasDots, LinkOnWay, Tidy, Served, StartsWith, Skipped,
      NoDots;
    var strict := m.(allowSymlinks := false);
    TidyNames(m.root);
    SiblingIsServed(strict, t, fails, path, sibling, rest);
    SafeIsResolvable(strict, t, fails, path);
    AllowingIsSafe(m, t, fails, path);
    AbsolutePlace(strict, t, fails, path);
    NoLinkCanonical(t, RootNames(m.root));
    var n := |RootNames(m.root)| - 1;
    assert Names(Parts(path))[n] == sibling && RootNames(m.root)[n] == LastPart(m.root);
    NotBelow(Names(Parts(path)), RootNames(m.root), n);
  }

  lemma NotBelow(p: Path, root: Path, n: nat)
    requires n < |p| && n < |root| && p[n] != root[n]
    ensures !Below(p, root)
  {
    assert |root| <= |p| ==> p[..|root|][n] == p[n];
  }

  lemma AllowingIsSafe(m: Settings, t: Tree, fails: bool, path: string)
    requires IsSafe(m.(allowSymlinks := false), t, fails, path)
    ensures IsSafe(m, t, fails, path)
  {
    hide Find, ResolvedText, StartsWith, Blocked, Canonical, Str, Resolved;
  }

  lemma SiblingIsServed(m: Settings, t: Tree, fails: bool, path: string, sibling: string, rest: Path)
    requires Absolute(path) && Tidy(m.root) && !Skipped(LastPart(m.root))
    requires StartsWith(sibling, LastPart(m.root)) && !HasDots(sibling)
    requires var q := RootParts(m.root);
             Names(Parts(path)) == q[..|q| - 1] + [sibling] + rest && RootNames(m.root) == q && NoDots(rest)
    requires !LinkOnWay(t, [], Names(Parts(path))) && !LinkOnWay(t, [], RootNames(m.root))
    ensures Served(m, t, fails, path)
  {
    hide Parts, Names, RootParts, HasDots, LinkOnWay, StartsWith, Canonical, Str, IsDirectory;
    var q, names := RootParts(m.root), Names(Parts(path));
    RootDots(m.root);
    NamesAre(Parts(path));
    DotNames();
    NoNames();
    assert forall c :: c in names ==> c in q || c == sibling || c in rest;
    assert [] + names == names;
    var w := Written(names, IsDirectory(Parts(path)));
    assert w[..|q| - 1] == q[..|q| - 1] && w[|q| - 1] == sibling;
    assert names[..|q| - 1] == q[..|q| - 1];
    NoLinkCanonical(t, RootNames(m.root));
    NamesSlashless(path);
    RootProper(m.root);
    StrStartsIff(names, RootNames(m.root));
  }

  // ---------- witnesses ----------

  lemma PartsFirst(name: string, rest: string)
    requires NoSlash(name)
    ensures Parts(name) == [name]
    ensures Parts(name + ("/" + rest)) == [name] + Parts(rest)
  {
    var s := name + ("/" + rest);
    hide IndexOf;
    NoIndex(name, '/', 0);
    forall k | 0 <= k < |name| ensures s[k] != '/' {
      assert s[k] == name[k] && name[k] in name;
    }
    FirstIndex(s, '/', 0, |name|);
    assert s[..|name|] == name && s[|name| + 1..] == rest;
  }

  lemma JoinedFirst(p: Path)
    requires p != []
    ensures |p| == 1 ==> Joined(p)[1..] == p[0]
    ensures |p| > 1 ==> Joined(p[1..]) != "" && Joined(p)[1..] == p[0] + ("/" + Joined(p[1..])[1..])
  {
    var rest := Joined(p[1..]);
    assert Joined(p)[1..] == p[0] + rest;
    assert rest != "" ==> rest == "/" + rest[1..];
  }

  lemma {:induction false} PartsLast(front: string, last: string)
    requires NoSlash(last)
    ensures Parts(front + ("/" + last)) == Parts(front) + [last]
    decreases |front|
  {
    hide IndexOf, NoSlash;
    var slash := IndexOf(front, '/', 0);
    if slash == -1 {
      UpToSlash(front);
      PartsFirst(front, last);
      PartsFirst(last, "");
    } else {
      var name, rest := front[..slash], front[slash + 1..];
      UpToSlash(front);
      assert front == name + ("/" + rest);
      PartsLast(rest, last);
      PartsFirst(name, rest);
      assert front + ("/" + last) == name + ("/" + (rest + ("/" + last)));
      PartsFirst(name, rest + ("/" + last));
    }
  }

  /** A normal form ends in a slash exactly when the text does, or when its last part is "." or "..". */
  lemma KeepsSlash(front: string, last: string)
    requires NoSlash(last)
    ensures IsDirectory(Parts(front + ("/" + last))) <==> last in ["", ".", ".."]
  {
    hide NoSlash, Parts;
    PartsLast(front, last);
  }

  lemma {:induction false} PartsOf(p: Path)
    requires p != [] && Slashless(p)
    ensures Parts(Joined(p)[1..]) == p
  {
    hide Parts, Joined, NoSlash;
    JoinedFirst(p);
    if |p| == 1 {
      PartsFirst(p[0], "");
    } else {
      PartsFirst(p[0], Joined(p[1..])[1..]);
      PartsOf(p[1..]);
    }
  }

  lemma PartsOfAbsolute(p: Path)
    requires p != [] && Slashless(p)
    ensures Absolute(Joined(p)) && Parts(Joined(p)) == [""] + p
  {
    hide Slashless, IndexOf;
    PartsOf(p);
    FirstIndex(Joined(p), '/', 0, 0);
    assert Joined(p)[..0] == "";
  }

  lemma NoTreeNoLink(names: Path)
    ensures !LinkOnWay(Tree(map[]), [], names)
  {
    hide Canonical;
  }

  lemma LongerName(name: string)
    ensures StartsWith(name + "x", name) && name + "x" != name
    ensures HasDots(name + "x") ==> HasDots(name)
    ensures name != "" ==> !Skipped(name + "x")
    ensures NoSlash(name) ==> NoSlash(name + "x")
  {
    hide HasDots;
    HasDotsIs(name + "x");
    HasDotsIs(name);
    if HasDots(name + "x") {
      var i :| 0 <= i && i + 1 < |name + "x"| && (name + "x")[i] == '.' && (name + "x")[i + 1] == '.';
      assert name[i] == '.' && name[i + 1] == '.';
    }
  }

  lemma NothingBelow(p: Path)
    ensures p + [] == p
  {
  }

  /** A safe request that leaves the module: a sibling, by an absolute request. */
  lemma AbsoluteLeaves(m: Settings)
    requires Tidy(m.root) && !Skipped(LastPart(m.root))
    ensures !KeepsWithin(m)
  {
    var q := RootParts(m.root);
    var sibling := LastPart(m.root) + "x";
    var names := q[..|q| - 1] + [sibling];
    hide HasDots, Tidy, Parts, LinkOnWay, IsSafe, StartsWith, StaysBelow, NoSlash, Skipped, RootParts;
    LongerName(LastPart(m.root));
    LastHasNoDots(m.root);
    RootSlashless(m.root);
    PartsOfAbsolute(names);
    TidyNames(m.root);
    SiblingNames(m.root, sibling);
    NoTreeNoLink(names);
    NoTreeNoLink(RootNames(m.root));
    NothingBelow(names);
    SiblingServed(m, Tree(map[]), false, Joined(names), sibling, []);
    assert Joined(names) != "";
  }

  lemma RootSlashless(root: Root)
    ensures Slashless(RootParts(root))
  {
    PartsSlashless(root[1..]);
  }

  lemma LastHasNoDots(root: Root)
    requires Tidy(root)
    ensures !HasDots(LastPart(root))
  {
    hide HasDots;
    RootDots(root);
  }

  lemma SiblingNames(root: Root, sibling: string)
    requires Tidy(root) && !Skipped(LastPart(root)) && !Skipped(sibling)
    ensures var q := RootParts(root); Names([""] + (q[..|q| - 1] + [sibling])) == q[..|q| - 1] + [sibling]
  {
    hide HasDots, RootParts;
    var q := RootParts(root);
    var names := q[..|q| - 1] + [sibling];
    assert ([""] + names)[1..] == names;
    NamesBut(names);
    assert names[..|names| - 1] == q[..|q| - 1];
  }

  /** A file system with one link. */
  function OneLink(from: Path, to: Path): Tree {
    Tree(map[from := to])
  }

  lemma {:induction false} OneLinkCanonical(from: Path, to: Path, done: Path, rest: Path)
    requires |done| + |rest| < |from|
    ensures Canonical(OneLink(from, to), done, rest) == done + rest
    decreases |rest|
  {
    if rest != [] {
      OneLinkCanonical(from, to, done + [rest[0]], rest[1..]);
      Regroup(done, [rest[0]], rest[1..]);
      assert [rest[0]] + rest[1..] == rest;
    }
  }

  lemma OneLinkFollowed(root: Path, name: string, to: Path)
    ensures Canonical(OneLink(root + [name], to), [], root + [name]) == to
    ensures Canonical(OneLink(root + [name], to), [], root) == root
  {
    OneLinkCanonical(root + [name], to, [], root);
    CanonicalAppend(OneLink(root + [name], to), [], root, name);
    assert [] + root == root;
  }

  /** A safe request that leaves the module: a link in it that leads to a sibling. */
  lemma LinkLeaves(m: Settings)
    requires Tidy(m.root) && m.allowSymlinks && RootNames(m.root) != []
    ensures !KeepsWithin(m)
  {
    var root := RootNames(m.root);
    var n := |root| - 1;
    var to := root[..n] + [root[n] + "x"];
    var t := OneLink(root + [".x"], to);
    hide HasDots, Tidy, Parts, LinkOnWay, IsSafe, StartsWith, StaysBelow, Skipped, RootParts, Canonical, Resolved,
      Names, BelowOrBeside, RootNames, Str, Below, KeepsWithin;
    DotRequest(m.root);
    LongerName(root[n]);
    OneLinkFollowed(root, ".x", to);
    assert BelowOrBeside(to, root) by {
      BesideSelf(root, root[n] + "x");
    }
    RootProper(m.root);
    StrStartsIff(to, root);
    LinkIsSafe(m, t, to);
    assert !Below(to, root) by {
      NotBelow(to, root, n);
    }
    Leaves(m, t, ".x");
  }

  lemma Leaves(m: Settings, t: Tree, path: string)
    requires path != "" && IsSafe(m, t, false, path) && !StaysBelow(m, t, false, path)
    ensures !KeepsWithin(m)
  {
    hide IsSafe, StaysBelow;
  }

  lemma BesideSelf(root: Path, name: string)
    requires root != [] && StartsWith(name, root[|root| - 1])
    ensures BelowOrBeside(root[..|root| - 1] + [name], root)
  {
  }

  lemma LinkIsSafe(m: Settings, t: Tree, to: Path)
    requires m.allowSymlinks && Canonical(t, [], RootNames(m.root)) == RootNames(m.root)
    requires Resolved(m.root, ".x") == RootNames(m.root) + [".x"] && Canonical(t, [], RootNames(m.root) + [".x"]) == to
    requires StartsWith(ResolvedText(m.root, ".x"), m.root) && !HasDots(ResolvedText(m.root, ".x")) && !HasDots(".x")
    requires StartsWith(Str(to), Str(RootNames(m.root)))
    ensures IsSafe(m, t, false, ".x")
    ensures Place(m, t, false, ".x") == to && Base(m, t, false) == RootNames(m.root)
  {
    SafeIff(m, t, false, ".x");
    hide Canonical, Resolved, ResolvedText, StartsWith, Str, RootNames, IsSafe, HasDots;
    DotsFound(ResolvedText(m.root, ".x"));
  }

  /** The request that every tidy root shows. */
  lemma DotRequest(root: Root)
    requires Tidy(root)
    ensures Resolved(root, ".x") == RootNames(root) + [".x"] && !HasDots(".x")
    ensures StartsWith(ResolvedText(root, ".x"), root) && !HasDots(ResolvedText(root, ".x"))
  {
    hide HasDots, StartsWith, Resolved, RootParts, RootNames, Joined, Written;
    var path := ".x";
    HasDotsIs(path);
    NoIndex(path, '/', 0);
    assert Parts(path) == [path];
    assert Names([path]) == [path];
    DotsThenX(path);
    RelativeShown(root, path);
    WrittenDots(Resolved(root, path), IsDirectory(Parts(path)));
    RootNamesNoDots(root);
  }

  lemma DotsThenX(path: string)
    requires path == ".x"
    ensures StartsWith(path, ".") && path != ".." && !Absolute(path)
  {
    assert path[..1] == ".";
  }

  lemma RootNamesNoDots(root: Root)
    requires !HasDots(root)
    ensures NoDots(RootNames(root))
  {
    hide HasDots;
    RootDots(root);
    NamesAre(RootParts(root));
  }

  /** A module keeps every safe request within its root exactly under these tests on its configuration. */
  lemma KeepsWithinIff(m: Settings)
    ensures KeepsWithin(m) <==> Containing(m)
  {
    hide Tidy, IsSafe, StaysBelow, Skipped, RootNames, LastPart;
    if Containing(m) {
      forall t, fails, path | path != "" && IsSafe(m, t, fails, path) ensures StaysBelow(m, t, fails, path) {
        ContainingStays(m, t, fails, path);
      }
    } else if Skipped(LastPart(m.root)) {
      LinkLeaves(m);
    } else {
      AbsoluteLeaves(m);
    }
  }
}
