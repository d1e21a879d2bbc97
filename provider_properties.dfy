/** Properties of the provider operations, proved about their
    specification: validation before any remote call, what destroyContainer
    removes and keeps, and what createContainer makes visible. */
module ProviderProperties {
  import opened Outcomes
  import opened Names
  import opened Paths
  import opened RemoteFs
  import opened Records
  import opened ProviderSpec

  /** A rejected name reaches no remote primitive: the operation returns
      the validation error and the filesystem is unchanged. getFile and
      removeFile check the container before the file. */
  lemma InvalidNamesTouchNothing(nodes: Nodes, root: string, name: string, file: string,
                                 options: ContainerOptions, created: Attrs)
    ensures !IsValidName(options.name) ==>
      CreateContainer(nodes, root, options, created) == (nodes, Err(ValidateName(options.name).error))
    ensures !IsValidName(name) ==>
      && DestroyContainer(nodes, root, name) == (nodes, Err(ValidateName(name).error))
      && GetContainer(nodes, root, name) == Err(ValidateName(name).error)
      && GetFiles(nodes, root, name) == Err(ValidateName(name).error)
      && GetFile(nodes, root, name, file) == Err(ValidateName(name).error)
      && RemoveFile(nodes, root, name, file) == (nodes, Err(ValidateName(name).error))
    ensures IsValidName(name) && !IsValidName(file) ==>
      && GetFile(nodes, root, name, file) == Err(ValidateName(file).error)
      && RemoveFile(nodes, root, name, file) == (nodes, Err(ValidateName(file).error))
  {
  }

  /** An entry that is a directory makes its unlink fail, so the unlinks
      report an error. */
  lemma {:induction false} UnlinkAllReportsDirectory(nodes: Nodes, dir: string, names: seq<string>, i: int)
    requires 0 <= i < |names|
    requires EntryPath(dir, names[i]) in nodes && nodes[EntryPath(dir, names[i])].DirNode?
    ensures UnlinkAll(nodes, dir, names).1.Some?
    decreases |names|
  {
    var n := |names| - 1;
    if i == n {
      UnlinkAllFrame(nodes, dir, names[..n]);
      UnlinkFrame(UnlinkAll(nodes, dir, names[..n]).0, EntryPath(dir, names[n]));
    } else {
      assert names[..n][i] == names[i];
      UnlinkAllReportsDirectory(nodes, dir, names[..n], i);
    }
  }

  /** The paths of the first `k` entries of a directory. */
  function ChildPaths(dir: string, names: seq<string>, k: nat): set<string>
    requires k <= |names|
  {
    set i | 0 <= i < k :: Join(dir, names[i])
  }

  /** `dir` is a directory whose listing holds distinct plain names, each of
      a regular file or other non-directory present under it. */
  predicate FlatListing(nodes: Nodes, dir: string) {
    && dir in nodes && nodes[dir].DirNode?
    && var names := nodes[dir].entries;
    && (forall i, j :: 0 <= i < j < |names| ==> names[i] != names[j])
    && (forall i :: 0 <= i < |names| ==>
          && '/' !in names[i] && '\\' !in names[i]
          && Join(dir, names[i]) in nodes && !nodes[Join(dir, names[i])].DirNode?)
  }

  /** The state after the first `k` unlinks of a flat directory. */
  function Cleared(nodes: Nodes, dir: string, k: nat): Nodes
    requires FlatListing(nodes, dir)
    requires k <= |nodes[dir].entries|
  {
    var names := nodes[dir].entries;
    (nodes - ChildPaths(dir, names, k))[dir := nodes[dir].(entries := names[k..])]
  }

  /** The unlink of entry `n` of a flat directory, after the ones before it,
      removes that entry from the filesystem and from the listing. */
  lemma UnlinkNextEntry(nodes: Nodes, dir: string, n: nat)
    requires '\\' !in dir
    requires FlatListing(nodes, dir)
    requires n < |nodes[dir].entries|
    ensures UnlinkAt(Cleared(nodes, dir, n), EntryPath(dir, nodes[dir].entries[n]))
         == (Cleared(nodes, dir, n + 1), Ok(()))
  {
    var names := nodes[dir].entries;
    var e := names[n];
    var before := Cleared(nodes, dir, n);
    var c := Join(dir, e);
    NormalizeIdempotent(c);
    assert c != dir by { assert |c| > |dir|; }
    assert c !in ChildPaths(dir, names, n) by {
      forall i | 0 <= i < n ensures Join(dir, names[i]) != c {
        if Join(dir, names[i]) == c { JoinInjective(dir, names[i], e); }
      }
    }
    UnlinkEntry(before, dir, e);
    assert names[n..][0] == e && names[n..][1..] == names[n + 1..];
    WithoutFirst(names[n..]);
    assert ChildPaths(dir, names, n + 1) == ChildPaths(dir, names, n) + {c};
    assert EntryPath(dir, e) == c;
    var after := (before - {c})[dir := before[dir].(entries := names[n + 1..])];
    assert UnlinkAt(before, c) == (after, Ok(()));
    assert after == Cleared(nodes, dir, n + 1);
  }

  /** After the first `k` unlinks of a flat directory, those entries are
      gone from the filesystem and from the listing, and nothing else has
      changed. */
  lemma {:induction false} UnlinkAllClears(nodes: Nodes, dir: string, k: nat)
    requires '\\' !in dir
    requires FlatListing(nodes, dir)
    requires k <= |nodes[dir].entries|
    ensures var names := nodes[dir].entries;
      UnlinkAll(nodes, dir, names[..k])
        == ((nodes - ChildPaths(dir, names, k))[dir := nodes[dir].(entries := names[k..])], None)
  {
    var names := nodes[dir].entries;
    if k == 0 {
      assert names[..0] == [] && names[0..] == names;
      assert ChildPaths(dir, names, 0) == {};
      assert (nodes - {})[dir := nodes[dir].(entries := names)] == nodes;
    } else {
      var n := k - 1;
      assert names[..k][..n] == names[..n];
      UnlinkAllClears(nodes, dir, n);
      UnlinkNextEntry(nodes, dir, n);
    }
  }

  /** destroyContainer of a container holding only files removes the files
      and the directory, drops the container from the root's listing, and
      changes nothing else. */
  lemma DestroyRemovesFlatContainer(nodes: Nodes, root: string, name: string)
    requires IsValidName(name)
    requires FlatListing(nodes, ContainerPath(root, name))
    ensures var dir := ContainerPath(root, name);
      var names := nodes[dir].entries;
      var (after, r) := DestroyContainer(nodes, root, name);
      && r == Ok(())
      && after.Keys == nodes.Keys - {dir} - ChildPaths(dir, names, |names|)
      && (forall q :: q in after && (Parent(dir).None? || q != Parent(dir).value.0) ==> after[q] == nodes[q])
      && (Parent(dir).Some? && Parent(dir).value.0 in nodes ==>
            var (d, n) := Parent(dir).value;
            && d in after
            && after[d] == (if nodes[d].DirNode? then nodes[d].(entries := Without(nodes[d].entries, n)) else nodes[d]))
  {
    var dir := ContainerPath(root, name);
    var names := nodes[dir].entries;
    UnlinkAllClears(nodes, dir, |names|);
    assert names[..|names|] == names;
    var cleared := (nodes - ChildPaths(dir, names, |names|))[dir := nodes[dir].(entries := [])];
    assert names[|names|..] == [];
    if Parent(dir).Some? && Parent(dir).value.0 in nodes {
      var d := Parent(dir).value.0;
      assert d !in ChildPaths(dir, names, |names|) by {
        forall i | 0 <= i < |names| ensures Join(dir, names[i]) != d {
          assert |Join(dir, names[i])| > |dir| > |d|;
        }
      }
      assert d in cleared && cleared[d] == nodes[d];
      UnlinkFrame(cleared, dir);
    }
  }

  /** Every entry of a container that is not a directory is unlinked by
      destroyContainer, whether or not another unlink fails: a failed
      destroy leaves the container partially cleaned, with its files gone. */
  lemma DestroyUnlinksNonDirectories(nodes: Nodes, root: string, name: string)
    requires IsValidName(name)
    requires ContainerPath(root, name) in nodes && nodes[ContainerPath(root, name)].DirNode?
    ensures var dir := ContainerPath(root, name);
      var names := nodes[dir].entries;
      var (after, r) := DestroyContainer(nodes, root, name);
      forall i :: (0 <= i < |names| && EntryPath(dir, names[i]) in nodes
                   && !nodes[EntryPath(dir, names[i])].DirNode?) ==> EntryPath(dir, names[i]) !in after
  {
    var dir := ContainerPath(root, name);
    UnlinkAllFrame(nodes, dir, nodes[dir].entries);
  }

  /** The unlinks never drop from the listing of `dir` an entry whose name
      holds `/` or `\`: its normalised path lies below a sub-directory, so
      no unlink has `dir` as its parent with that name. */
  lemma {:induction false} UnlinkAllKeepsDeepName(nodes: Nodes, dir: string, names: seq<string>, x: string)
    requires '\\' !in dir
    requires dir in nodes && nodes[dir].DirNode? && x in nodes[dir].entries
    ensures var after := UnlinkAll(nodes, dir, names).0;
      && dir in after && after[dir].DirNode?
      && ('/' in x || '\\' in x ==> x in after[dir].entries)
    decreases |names|
  {
    if names != [] {
      var n := |names| - 1;
      UnlinkAllKeepsDeepName(nodes, dir, names[..n], x);
      var before := UnlinkAll(nodes, dir, names[..n]).0;
      var p := EntryPath(dir, names[n]);
      UnlinkFrame(before, p);
      EntryPathParent(dir, names[n]);
      assert UnlinkAll(nodes, dir, names).0 == UnlinkAt(before, p).0;
    }
  }

  /** When no unlink failed, entry `i` named an existing non-directory,
      still present when its turn came. */
  lemma UnlinkedEntry(nodes: Nodes, dir: string, names: seq<string>, i: nat)
    requires i < |names|
    requires UnlinkAll(nodes, dir, names).1.None?
    ensures var p := EntryPath(dir, names[i]);
      && p in nodes && !nodes[p].DirNode?
      && p in UnlinkAll(nodes, dir, names[..i]).0
  {
    UnlinkAllFirstFailure(nodes, dir, names);
    UnlinkOutcomesAreSteps(nodes, dir, names, i);
    UnlinkFrame(UnlinkAll(nodes, dir, names[..i]).0, EntryPath(dir, names[i]));
    UnlinkAllFrame(nodes, dir, names[..i]);
  }

  /** When no unlink failed, no name was listed twice: the second unlink
      of a name finds its path already gone. */
  lemma UnlinkedEntriesDistinct(nodes: Nodes, dir: string, names: seq<string>, i: nat, j: nat)
    requires i < j < |names|
    requires UnlinkAll(nodes, dir, names).1.None?
    ensures names[i] != names[j]
  {
    UnlinkedEntry(nodes, dir, names, i);
    UnlinkedEntry(nodes, dir, names, j);
    UnlinkAllFrame(nodes, dir, names[..j]);
    assert names[..j][i] == names[i];
  }

  /** Every successful destroyContainer had a valid name and a flat
      container: distinct entry names without `/` or `\`, each an existing
      non-directory. So DestroyRemovesFlatContainer gives the new state of
      every success. */
  lemma DestroyOkIsFlat(nodes: Nodes, root: string, name: string)
    requires DestroyContainer(nodes, root, name).1.Ok?
    ensures IsValidName(name)
    ensures FlatListing(nodes, ContainerPath(root, name))
  {
    var dir := ContainerPath(root, name);
    var names := nodes[dir].entries;
    var cleared := UnlinkAll(nodes, dir, names).0;
    assert RmdirAt(cleared, dir).1.Ok?;
    forall i | 0 <= i < |names|
      ensures '/' !in names[i] && '\\' !in names[i]
      ensures Join(dir, names[i]) in nodes && !nodes[Join(dir, names[i])].DirNode?
    {
      UnlinkAllKeepsDeepName(nodes, dir, names, names[i]);
      UnlinkedEntry(nodes, dir, names, i);
      NormalizeIdempotent(Join(dir, names[i]));
    }
    forall i, j | 0 <= i < j < |names|
      ensures names[i] != names[j]
    {
      UnlinkedEntriesDistinct(nodes, dir, names, i, j);
    }
  }

  /** The new state of every successful destroyContainer: the container and
      its former entries are gone, the parent's listing loses the
      container's name, and nothing else changes. */
  lemma DestroySuccessState(nodes: Nodes, root: string, name: string)
    requires DestroyContainer(nodes, root, name).1.Ok?
    ensures var dir := ContainerPath(root, name);
      var names := nodes[dir].entries;
      var after := DestroyContainer(nodes, root, name).0;
      && after.Keys == nodes.Keys - {dir} - ChildPaths(dir, names, |names|)
      && (forall q :: q in after && (Parent(dir).None? || q != Parent(dir).value.0) ==> after[q] == nodes[q])
      && (Parent(dir).Some? && Parent(dir).value.0 in nodes ==>
            var (d, n) := Parent(dir).value;
            && d in after
            && after[d] == (if nodes[d].DirNode? then nodes[d].(entries := Without(nodes[d].entries, n)) else nodes[d]))
  {
    DestroyOkIsFlat(nodes, root, name);
    DestroyRemovesFlatContainer(nodes, root, name);
  }

  /** destroyContainer of a container holding a sub-directory fails and
      leaves both the sub-directory and the container in place. */
  lemma DestroyKeepsSubdirectory(nodes: Nodes, root: string, name: string, i: int)
    requires ContainerPath(root, name) in nodes && nodes[ContainerPath(root, name)].DirNode?
    requires 0 <= i < |nodes[ContainerPath(root, name)].entries|
    requires var sub := EntryPath(ContainerPath(root, name), nodes[ContainerPath(root, name)].entries[i]);
      sub in nodes && nodes[sub].DirNode?
    ensures var dir := ContainerPath(root, name);
      var sub := EntryPath(dir, nodes[dir].entries[i]);
      var (after, r) := DestroyContainer(nodes, root, name);
      && r.Err?
      && dir in after && after[dir].DirNode?
      && sub in after && after[sub].DirNode?
  {
    var dir := ContainerPath(root, name);
    var names := nodes[dir].entries;
    var sub := EntryPath(dir, names[i]);
    if IsValidName(name) {
      UnlinkAllReportsDirectory(nodes, dir, names, i);
      UnlinkAllFrame(nodes, dir, names);
    }
  }

  /** For an existing container, destroyContainer succeeds exactly when the
      directory is gone afterwards: on every error path it is kept. */
  lemma DestroySucceedsIffRemoved(nodes: Nodes, root: string, name: string)
    requires ContainerPath(root, name) in nodes && nodes[ContainerPath(root, name)].DirNode?
    ensures var (after, r) := DestroyContainer(nodes, root, name);
      r.Ok? <==> ContainerPath(root, name) !in after
  {
    var dir := ContainerPath(root, name);
    if IsValidName(name) {
      UnlinkAllFrame(nodes, dir, nodes[dir].entries);
    }
  }

  /** createContainer followed by getContainer of the same name gives the
      Container createContainer returned: that name, and the attributes of
      a new empty directory with the requested mode. */
  lemma CreateThenGet(nodes: Nodes, root: string, options: ContainerOptions, created: Attrs)
    ensures var (after, r) := CreateContainer(nodes, root, options, created);
      r.Ok? ==>
        && r.value == Container(options.name, created.size, created.atime, created.mtime, created.ctime)
        && after[ContainerPath(root, options.name)] == DirNode([], created, options.mode)
        && GetContainer(after, root, options.name) == Ok(r.value)
  {
  }

  /** A valid name without backslashes, under a root directory that exists
      and lacks it, is created, and is listed last in the root. */
  lemma CreateInRoot(nodes: Nodes, root: string, options: ContainerOptions, created: Attrs)
    requires IsValidName(options.name) && '\\' !in options.name && '\\' !in root
    requires root in nodes && nodes[root].DirNode?
    requires ContainerPath(root, options.name) !in nodes
    ensures var (after, r) := CreateContainer(nodes, root, options, created);
      && r.Ok?
      && after[root] == nodes[root].(entries := nodes[root].entries + [options.name])
  {
    var dir := ContainerPath(root, options.name);
    assert dir == Join(root, options.name) by {
      NormalizeIdempotent(Join(root, options.name));
    }
    assert Parent(dir) == Some((root, options.name)) by {
      ParentOfJoin(root, options.name);
    }
    assert dir != root by { assert |dir| > |root|; }
    var added := nodes[dir := DirNode([], created, options.mode)];
    var made := MkdirAt(nodes, dir, options.mode, created);
    assert made == (added[root := added[root].(entries := added[root].entries + [options.name])], Ok(()));
  }

  /** When every entry's stat succeeds, StatAll gives exactly those stats. */
  lemma StatAllOk(nodes: Nodes, dir: string, names: seq<string>, stats: seq<Stats>)
    requires |stats| == |names|
    requires forall i :: 0 <= i < |names| ==> StatAt(nodes, EntryPath(dir, names[i])) == Ok(stats[i])
    ensures StatAll(nodes, dir, names) == Ok(stats)
  {
    var r := StatAll(nodes, dir, names);
    assert forall i :: 0 <= i < |names| ==> Ok(r.value[i]) == Ok(stats[i]);
    assert r.value == stats;
  }

  /** getContainers: one Container per root entry whose stat is a
      directory, in listing order, named by the entry at its position and
      carrying that entry's stat; the other entries are absent. */
  lemma GetContainersListsDirectories(nodes: Nodes, root: string, names: seq<string>, stats: seq<Stats>)
    requires ReaddirAt(nodes, root) == Ok(names)
    requires |stats| == |names|
    requires forall i :: 0 <= i < |names| ==> StatAt(nodes, EntryPath(root, names[i])) == Ok(stats[i])
    ensures GetContainers(nodes, root).Ok?
    ensures var cs, ix := GetContainers(nodes, root).value, Positions(stats, Directory);
      |cs| == |ix| && forall j :: 0 <= j < |ix| ==> cs[j] == ContainerFor(names[ix[j]], stats[ix[j]])
  {
    StatAllOk(nodes, root, names, stats);
    DirectoryContainersFollowListing(names, stats);
  }

  /** getFiles: one File per entry of the container whose stat is a
      regular file, in listing order, with the container given and the
      entry at its position as name. */
  lemma GetFilesListsRegularFiles(nodes: Nodes, root: string, container: string,
                                  names: seq<string>, stats: seq<Stats>)
    requires IsValidName(container)
    requires ReaddirAt(nodes, ContainerPath(root, container)) == Ok(names)
    requires |stats| == |names|
    requires forall i :: 0 <= i < |names| ==>
      StatAt(nodes, EntryPath(ContainerPath(root, container), names[i])) == Ok(stats[i])
    ensures GetFiles(nodes, root, container).Ok?
    ensures var fs, ix := GetFiles(nodes, root, container).value, Positions(stats, RegularFile);
      |fs| == |ix| && forall j :: 0 <= j < |ix| ==> fs[j] == FileFor(container, names[ix[j]], stats[ix[j]])
  {
    StatAllOk(nodes, ContainerPath(root, container), names, stats);
    RegularFilesFollowListing(container, names, stats);
  }
}
