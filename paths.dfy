/** Remote path construction: `path.join` of the root and validated single
    segments, followed by `SFTPProvider.normalizePath`. */
module Paths {
  import opened Outcomes
  import opened Names

  function Slash(c: char): char {
    if c == '\\' then '/' else c
  }

  /** `SFTPProvider.normalizePath`: `path.replace(/\\/g, '/')`. */
  function NormalizePath(p: string): (r: string)
    ensures |r| == |p|
    ensures forall i :: 0 <= i < |p| ==> r[i] == Slash(p[i])
    ensures '\\' !in r
  {
    if p == [] then [] else [Slash(p[0])] + NormalizePath(p[1..])
  }

  /** Normalising twice is normalising once, and a path without a backslash
      is left as it is. */
  lemma NormalizeIdempotent(p: string)
    ensures NormalizePath(NormalizePath(p)) == NormalizePath(p)
    ensures '\\' !in p ==> NormalizePath(p) == p
  {
    if '\\' !in p {
      assert forall i :: 0 <= i < |p| ==> p[i] != '\\';
    }
  }

  lemma NormalizeConcat(a: string, b: string)
    ensures NormalizePath(a + b) == NormalizePath(a) + NormalizePath(b)
  {
  }

  /** Normalisation distributes over a join. */
  lemma NormalizeJoin(base: string, segment: string)
    ensures NormalizePath(Join(base, segment))
         == NormalizePath(base) + "/" + NormalizePath(segment)
  {
    NormalizeConcat(base + "/", segment);
    NormalizeConcat(base, "/");
  }

  /** `path.join(base, segment)` for a validated segment. The model keeps
      the two parts and one separator between them; the normalisation of
      `.`, `..` and doubled separators that Node's `path.join` also does is
      not modelled. */
  function Join(base: string, segment: string): (r: string)
    ensures |r| == |base| + |segment| + 1 && r[|base|] == '/'
  {
    base + "/" + segment
  }

  /** `normalizePath(path.join(root, name))`: where a container lives. */
  function ContainerPath(root: string, name: string): (r: string)
    ensures '\\' !in r
    ensures |r| == |root| + |name| + 1 && r[|root|] == '/'
  {
    NormalizePath(Join(root, name))
  }

  /** `normalizePath(path.join(root, container, file))`: where a file lives. */
  function ObjectPath(root: string, container: string, file: string): (r: string)
    ensures '\\' !in r
    ensures |r| == |root| + |container| + |file| + 2 && r[|root|] == '/' && r[|root| + |container| + 1] == '/'
  {
    NormalizePath(Join(Join(root, container), file))
  }

  /** `normalizePath(path.join(dir, entry))`: a listed entry of `dir`. */
  function EntryPath(dir: string, entry: string): (r: string)
    ensures '\\' !in r
    ensures |r| == |dir| + |entry| + 1 && r[|dir|] == '/'
  {
    NormalizePath(Join(dir, entry))
  }

  /** A `..` segment of a normalised path: two dots bounded by `/` or the
      ends of the path. */
  predicate TraversalAt(t: string, i: int) {
    0 <= i && i + 2 <= |t| && t[i] == '.' && t[i + 1] == '.'
    && (i == 0 || t[i - 1] == '/')
    && (i + 2 == |t| || t[i + 2] == '/')
  }

  ghost predicate HasTraversal(t: string) {
    exists i :: TraversalAt(t, i)
  }

  /** Normalisation turns every `..` that CONTAINS_DOT_DOT_PATHS finds into a
      `..` segment, and creates no other. */
  lemma NormalizeKeepsDotDot(s: string, i: int)
    ensures DotDotAt(s, i) <==> TraversalAt(NormalizePath(s), i)
  {
  }

  /** A `..` segment of `x + "/" + y` lies wholly inside `x` or wholly
      inside `y`: the separator between them is not a dot. */
  lemma TraversalInJoin(x: string, y: string, i: int)
    requires TraversalAt(x + "/" + y, i)
    ensures TraversalAt(x, i) || TraversalAt(y, i - |x| - 1)
  {
    var t := x + "/" + y;
    assert t[|x|] == '/';
    if i + 2 > |x| {
      var j := i - |x| - 1;
      assert 0 <= j;
      assert t[i] == y[j] && t[i + 1] == y[j + 1];
      assert j > 0 ==> t[i - 1] == y[j - 1];
      assert i + 2 < |t| ==> t[i + 2] == y[j + 2];
    }
  }

  /** Joining two parts without `..` segments gives none. */
  lemma JoinHasNoTraversal(x: string, y: string)
    requires !HasTraversal(x) && !HasTraversal(y)
    ensures !HasTraversal(x + "/" + y)
  {
    forall i | TraversalAt(x + "/" + y, i)
      ensures false
    {
      TraversalInJoin(x, y, i);
    }
  }

  /** The safety boundary: joining a root without `..` segments and a name
      that validateName accepts, then normalising, gives a path without a
      `..` segment, so it cannot climb above the root. */
  lemma JoinValidNameHasNoTraversal(base: string, name: string)
    requires !HasTraversal(NormalizePath(base))
    requires IsValidName(name)
    ensures !HasTraversal(NormalizePath(Join(base, name)))
  {
    ValidNameCharacterization(name);
    forall i | TraversalAt(NormalizePath(name), i)
      ensures false
    {
      NormalizeKeepsDotDot(name, i);
    }
    NormalizeJoin(base, name);
    JoinHasNoTraversal(NormalizePath(base), NormalizePath(name));
  }

  /** The same for the two-level path of a file. */
  lemma ObjectPathHasNoTraversal(root: string, container: string, file: string)
    requires !HasTraversal(NormalizePath(root))
    requires IsValidName(container) && IsValidName(file)
    ensures !HasTraversal(ObjectPath(root, container, file))
  {
    JoinValidNameHasNoTraversal(root, container);
    NormalizeIdempotent(Join(root, container));
    NormalizeConcat(Join(root, container) + "/", file);
    NormalizeConcat(Join(root, container), "/");
    NormalizeConcat(NormalizePath(Join(root, container)) + "/", file);
    NormalizeConcat(NormalizePath(Join(root, container)), "/");
    assert ObjectPath(root, container, file)
        == NormalizePath(Join(NormalizePath(Join(root, container)), file));
    JoinValidNameHasNoTraversal(NormalizePath(Join(root, container)), file);
  }

  /** On POSIX NAME_PATTERN lets a backslash through, and normalisation
      then turns it into a separator: an accepted name can address a path
      two levels below the root (still without a `..` segment). */
  lemma BackslashNameSpansTwoSegments()
    ensures IsValidName("a\\b")
    ensures ContainerPath("/r", "a\\b") == "/r/a/b"
  {
    ValidNameCharacterization("a\\b");
    assert ContainerPath("/r", "a\\b")[4] == '/';
  }

  /** The name `\` is accepted, and its container path under `/r` is
      `/r//`, which a server resolves to the root itself. */
  lemma BackslashNameAddressesRoot()
    ensures IsValidName("\\")
    ensures ContainerPath("/r", "\\") == "/r//"
  {
    ValidNameCharacterization("\\");
    assert ContainerPath("/r", "\\")[3] == '/';
  }

  /** Position of the last `/` of `p`. */
  function LastSlash(p: string): (k: Option<nat>)
    ensures k.None? ==> '/' !in p
    ensures k.Some? ==> k.value < |p| && p[k.value] == '/'
                        && forall j :: k.value < j < |p| ==> p[j] != '/'
  {
    if p == [] then None
    else if p[|p| - 1] == '/' then Some(|p| - 1)
    else LastSlash(p[..|p| - 1])
  }

  /** The directory holding `p` and the name of `p` in it. */
  function Parent(p: string): (r: Option<(string, string)>)
    ensures r.None? <==> '/' !in p
    ensures r.Some? ==> |r.value.0| < |p| && '/' !in r.value.1
  {
    match LastSlash(p)
    case None => None
    case Some(k) => Some((p[..k], p[k + 1..]))
  }

  /** A name without `/` joined to a directory has that directory as parent. */
  lemma ParentOfJoin(dir: string, name: string)
    requires '/' !in name
    ensures Parent(Join(dir, name)) == Some((dir, name))
  {
    var p := Join(dir, name);
    var k := LastSlash(p);
    assert p[|dir|] == '/';
    assert forall j :: |dir| < j < |p| ==> p[j] == name[j - |dir| - 1];
    assert k.Some? && k.value == |dir|;
    assert p[..|dir|] == dir;
    assert p[|dir| + 1..] == name;
  }

  /** The normalised entry path of `m` in a directory without `\\` has that
      directory as parent iff `m` holds neither `/` nor `\\`, and then `m`
      is its last component; otherwise its parent is deeper. */
  lemma EntryPathParent(dir: string, m: string)
    requires '\\' !in dir
    ensures Parent(EntryPath(dir, m)).Some?
    ensures Parent(EntryPath(dir, m)).value.0 == dir <==> '/' !in m && '\\' !in m
    ensures '/' !in m && '\\' !in m ==> Parent(EntryPath(dir, m)) == Some((dir, m))
  {
    var p := EntryPath(dir, m);
    var nm := NormalizePath(m);
    NormalizeJoin(dir, m);
    NormalizeIdempotent(dir);
    NormalizeIdempotent(m);
    assert p == Join(dir, nm);
    assert ('/' in nm) <==> ('/' in m || '\\' in m) by {
      assert forall i :: 0 <= i < |m| ==> (nm[i] == '/' <==> m[i] == '/' || m[i] == '\\');
    }
    if '/' in nm {
      var k := LastSlash(p).value;
      assert p[|dir|] == '/';
      assert k >= |dir|;
      assert |Parent(p).value.0| == k;
    } else {
      ParentOfJoin(dir, nm);
    }
  }

  /** Different names give different entry paths in the same directory. */
  lemma JoinInjective(dir: string, a: string, b: string)
    requires Join(dir, a) == Join(dir, b)
    ensures a == b
  {
    assert a == Join(dir, a)[|dir| + 1..];
    assert b == Join(dir, b)[|dir| + 1..];
  }

  /** Names without `\` give different normalised entry paths in the same
      directory; `a\b` and `a/b`, which normalise alike, show that the
      restriction is needed. */
  lemma EntryPathInjective(dir: string, a: string, b: string)
    requires '\\' !in a && '\\' !in b
    requires EntryPath(dir, a) == EntryPath(dir, b)
    ensures a == b
  {
    NormalizeJoin(dir, a);
    NormalizeJoin(dir, b);
    JoinInjective(NormalizePath(dir), NormalizePath(a), NormalizePath(b));
    NormalizeIdempotent(a);
    NormalizeIdempotent(b);
  }

  /** `a\b` and `a/b` share an entry path. */
  lemma BackslashEntriesCollide()
    ensures EntryPath("/d", "a\\b") == EntryPath("/d", "a/b")
  {
    assert EntryPath("/d", "a\\b")[4] == '/';
  }
}
