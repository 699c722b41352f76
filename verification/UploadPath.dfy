/** Where the temporary file of an upload lands. The session joins the module's root with the requested
    path itself, and makes none of the module's tests on it. */
module UploadPath {
  import opened Text
  import opened ModulePath

  const SUFFIX := ".tmp"

  function TempParts(path: string): seq<string> {
    Parts(path + SUFFIX)
  }

  function TempFile(root: Root, path: string): Path {
    Resolved(root, path + SUFFIX)
  }

  function RootPlace(root: Root): Path {
    Normal([], RootParts(root))
  }

  // ---------- how far a path climbs ----------

  /** How many levels `parts` climb above the place they start from, when it already stands `height`
      levels above that place's level. */
  function Climb(parts: seq<string>, height: nat): nat
    decreases |parts|
  {
    if parts == [] then 0
    else if Skipped(parts[0]) then Climb(parts[1..], height)
    else if parts[0] == ".." then if height == 0 then 1 + Climb(parts[1..], 0) else Climb(parts[1..], height - 1)
    else Climb(parts[1..], height + 1)
  }

  /** What is kept of a place of `depth` names. */
  function Kept(depth: nat, climb: nat): nat {
    if climb <= depth then depth - climb else 0
  }

  /** Normalising keeps the names above the lowest level reached, and what follows it does not depend on
      the place it started from. */
  lemma {:induction false} NormalClimbs(base: Path, above: Path, parts: seq<string>)
    ensures Normal(base + above, parts) == base[..Kept(|base|, Climb(parts, |above|))] + Normal(above, parts)
    decreases |parts|
  {
    if parts == [] {
      assert base[..|base|] == base;
    } else if Skipped(parts[0]) {
      NormalClimbs(base, above, parts[1..]);
    } else if parts[0] == ".." {
      if above != [] {
        assert (base + above)[..|base + above| - 1] == base + above[..|above| - 1];
        NormalClimbs(base, above[..|above| - 1], parts[1..]);
      } else {
        ClimbOne(base, above, parts);
      }
    } else {
      Regroup(base, above, [parts[0]]);
      NormalClimbs(base, above + [parts[0]], parts[1..]);
    }
  }

  lemma {:induction false} ClimbOne(base: Path, above: Path, parts: seq<string>)
    requires above == [] && parts != [] && parts[0] == ".."
    ensures Normal(base + above, parts) == base[..Kept(|base|, Climb(parts, 0))] + Normal(above, parts)
    decreases |parts|, 0
  {
    var up := if base == [] then [] else base[..|base| - 1];
    assert base + above == base && up + [] == up;
    NormalClimbs(up, [], parts[1..]);
    assert up[..Kept(|up|, Climb(parts[1..], 0))] == base[..Kept(|base|, Climb(parts, 0))];
  }

  lemma {:induction false} NormalAppend(done: Path, a: seq<string>, b: seq<string>)
    ensures Normal(done, a + b) == Normal(Normal(done, a), b)
    decreases |a|
  {
    if a == [] {
      assert a + b == b;
    } else {
      assert (a + b)[1..] == a[1..] + b;
      NormalAppend(if Skipped(a[0]) then done
                   else if a[0] == ".." then if done == [] then [] else done[..|done| - 1]
                   else done + [a[0]], a[1..], b);
    }
  }

  /** The names of the root that the request keeps: an absolute request keeps none. */
  function KeptOfRoot(root: Root, path: string): nat {
    if Absolute(path) then 0 else Kept(|RootPlace(root)|, Climb(TempParts(path), 0))
  }

  /** For every request: the root's names as far as they are kept, and then what the request names after
      its lowest point. */
  lemma TempFileIs(root: Root, path: string)
    ensures KeptOfRoot(root, path) <= |RootPlace(root)|
    ensures TempFile(root, path) == RootPlace(root)[..KeptOfRoot(root, path)] + Normal([], TempParts(path))
  {
    hide Normal, Parts, Climb;
    var place := RootPlace(root);
    assert Absolute(path + SUFFIX) == Absolute(path) by {
      SuffixFirst(path);
    }
    if Absolute(path) {
      assert [] + TempParts(path) == TempParts(path);
    } else {
      NormalAppend([], RootParts(root), TempParts(path));
      NormalClimbs(place, [], TempParts(path));
      assert place + [] == place;
    }
  }

  lemma SuffixFirst(path: string)
    ensures Absolute(path + SUFFIX) == Absolute(path)
  {
    assert path == "" ==> path + SUFFIX == SUFFIX;
  }

  /** The temporary file lands below the root exactly when the request names again, from its lowest point
      on, the names of the root that it left. */
  lemma LandsBelowIff(root: Root, path: string)
    ensures KeptOfRoot(root, path) <= |RootPlace(root)|
    ensures Below(TempFile(root, path), RootPlace(root))
            <==> Below(Normal([], TempParts(path)), RootPlace(root)[KeptOfRoot(root, path)..])
  {
    hide RootPlace, TempFile, KeptOfRoot, Normal, Below;
    TempFileIs(root, path);
    BelowRest(RootPlace(root), KeptOfRoot(root, path), Normal([], TempParts(path)));
  }

  lemma BelowRest(root: Path, k: nat, rest: Path)
    requires k <= |root|
    ensures Below(root[..k] + rest, root) <==> Below(rest, root[k..])
  {
    var p := root[..k] + rest;
    if |root| <= |p| {
      assert p[..|root|] == root[..k] + rest[..|root| - k];
      assert root == root[..k] + root[k..];
      assert (root[..k] + rest[..|root| - k])[k..] == rest[..|root| - k] && root[k..] == (root[..k] + root[k..])[k..];
    }
  }

  // ---------- requests that stay ----------

  /** The suffix goes to the last part, which so is a name, whatever it was. */
  lemma {:induction false} PartsSuffix(path: string)
    ensures var parts := Parts(path);
            TempParts(path) == parts[..|parts| - 1] + [parts[|parts| - 1] + SUFFIX]
    decreases |path|
  {
    hide IndexOf;
    var slash := IndexOf(path, '/', 0);
    BeforeIndex(path, '/', 0);
    if slash == -1 {
      SuffixPart(path);
      PartsFirst(path + SUFFIX, "");
      assert Parts(path) == [path];
    } else {
      var first, rest := path[..slash], path[slash + 1..];
      assert path == first + ("/" + rest) && path + SUFFIX == first + ("/" + (rest + SUFFIX));
      assert NoSlash(first);
      PartsFirst(first, rest);
      PartsFirst(first, rest + SUFFIX);
      PartsSuffix(rest);
      hide Parts;
      LaterLast(first, Parts(rest));
    }
  }

  lemma LaterLast(first: string, rest: seq<string>)
    requires rest != []
    ensures var parts := [first] + rest;
            parts[..|parts| - 1] == [first] + rest[..|rest| - 1] && parts[|parts| - 1] == rest[|rest| - 1]
  {
  }

  lemma SuffixPart(part: string)
    requires forall k :: 0 <= k < |part| ==> part[k] != '/'
    ensures NoSlash(part + SUFFIX)
  {
    assert '/' !in SUFFIX;
  }

  lemma {:induction false} NoClimb(parts: seq<string>, height: nat)
    requires ".." !in parts
    ensures Climb(parts, height) == 0
    decreases |parts|
  {
    if parts != [] {
      NoClimb(parts[1..], if Skipped(parts[0]) then height else height + 1);
    }
  }

  /** A relative request whose parts before the last are not ".." lands below the root, under the names in
      it. */
  lemma StaysWithoutUp(root: Root, path: string)
    requires !Absolute(path) && ".." !in Parts(path)[..|Parts(path)| - 1]
    ensures TempFile(root, path) == RootPlace(root) + Names(TempParts(path))
    ensures Below(TempFile(root, path), RootPlace(root))
  {
    hide Parts, Normal, Names, RootParts, Climb;
    var parts := Parts(path);
    PartsSuffix(path);
    assert |parts[|parts| - 1] + SUFFIX| > 2;
    NoClimb(TempParts(path), 0);
    TempFileIs(root, path);
    NormalNames([], TempParts(path));
    assert [] + Names(TempParts(path)) == Names(TempParts(path));
    assert RootPlace(root)[..|RootPlace(root)|] == RootPlace(root);
  }

  /** So making the module's own check first would have been enough for relative requests. */
  lemma SafeLandsBelow(m: Settings, t: Tree, fails: bool, path: string)
    requires !Absolute(path) && IsSafe(m, t, fails, path)
    ensures Below(TempFile(m.root, path), RootPlace(m.root))
  {
    hide Parts, IsSafe, Below, TempFile, RootPlace;
    SafeIff(m, t, fails, path);
    NoUp(path);
    StaysWithoutUp(m.root, path);
  }

  // ---------- requests that leave ----------

  predicate GoodName(name: string) {
    ProperName(name) && NoSlash(name)
  }

  lemma UpAndDown(other: string, file: string)
    requires GoodName(other) && NoSlash(file)
    ensures TempParts("../" + other + "/" + file) == ["..", other, file + SUFFIX]
    ensures !Absolute("../" + other + "/" + file)
  {
    var rest := other + ("/" + (file + SUFFIX));
    assert "../" + other + "/" + file + SUFFIX == ".." + ("/" + rest);
    assert NoSlash("..") && NoSlash(file + SUFFIX) by {
      SuffixPart(file);
    }
    hide Parts;
    PartsFirst("..", rest);
    PartsFirst(other, file + SUFFIX);
    PartsFirst(file + SUFFIX, "");
    assert ("../" + other + "/" + file)[0] == '.';
  }

  lemma ClimbsOnce(other: string, file: string)
    requires GoodName(other) && |file| > 2
    ensures Climb(["..", other, file], 0) == 1 && Normal([], ["..", other, file]) == [other, file]
  {
    var parts := ["..", other, file];
    assert parts[1..] == [other, file] && [other, file][1..] == [file] && [file][1..] == [];
    assert Climb([file], 1) == Climb([], 2) && Normal([other], [file]) == Normal([other] + [file], []);
    assert Normal([], [other, file]) == Normal([] + [other], [file]) && [] + [other] == [other];
  }

  /** A request that climbs once lands in the directory beside the root that it names. */
  lemma CrossesOver(parent: Path, name: string, other: string, file: string)
    requires forall i :: 0 <= i < |parent| ==> GoodName(parent[i])
    requires GoodName(name) && GoodName(other) && NoSlash(file)
    ensures var root := Joined(parent + [name]);
            Absolute(root) && TempFile(root, "../" + other + "/" + file) == parent + [other, file + SUFFIX]
    ensures RootPlace(Joined(parent + [other])) == parent + [other]
  {
    var path := "../" + other + "/" + file;
    GoodRoot(parent, name);
    GoodRoot(parent, other);
    UpAndDown(other, file);
    var root: Root := Joined(parent + [name]);
    hide Parts, RootPlace, Joined, TempFile, Climb, Normal;
    TempFileIs(root, path);
    ClimbsOnce(other, file + SUFFIX);
    assert (parent + [name])[..|parent|] == parent;
  }

  lemma GoodRoot(parent: Path, name: string)
    requires GoodName(name) && forall i :: 0 <= i < |parent| ==> GoodName(parent[i])
    ensures Absolute(Joined(parent + [name])) && RootPlace(Joined(parent + [name])) == parent + [name]
  {
    hide Parts;
    var p := parent + [name];
    PartsOf(p);
    PartsOfAbsolute(p);
    NormalNames([], p);
    hide Joined;
    AllNames(p);
    assert [] + p == p;
  }

  lemma {:induction false} AllNames(p: Path)
    requires forall i :: 0 <= i < |p| ==> !Skipped(p[i])
    ensures Names(p) == p
  {
    if p != [] {
      AllNames(p[1..]);
    }
  }
}
