/** What each provider operation does to the remote filesystem and returns,
    as functions of the filesystem state, and the properties the provider
    promises, proved about those functions. The parallel fan-out of the
    source (one `stat` or `unlink` per entry, joined with `Promise.all`) is
    taken sequentially, in listing order. */
module ProviderSpec {
  import opened Outcomes
  import opened Names
  import opened Paths
  import opened RemoteFs
  import opened Records

  /** The options object of createContainer: the name, and the mode that
      goes with it to `mkdir`. */
  datatype ContainerOptions = ContainerOptions(name: string, mode: Option<int>)

  /** One `stat` per entry of `dir`: their results in listing order, or the
      error of the first entry whose `stat` fails. */
  function StatAll(nodes: Nodes, dir: string, names: seq<string>): (r: Result<seq<Stats>>)
    ensures r.Ok? ==> (
      && |r.value| == |names|
      && forall i :: 0 <= i < |names| ==> StatAt(nodes, EntryPath(dir, names[i])) == Ok(r.value[i]))
    ensures r.Err? ==> (
      exists i :: 0 <= i < |names|
        && StatAt(nodes, EntryPath(dir, names[i])) == Err(r.error)
        && forall j :: 0 <= j < i ==> StatAt(nodes, EntryPath(dir, names[j])).Ok?)
  {
    if names == [] then Ok([])
    else
      var n := |names| - 1;
      match StatAll(nodes, dir, names[..n])
      case Err(e) => Err(e)
      case Ok(stats) =>
        match StatAt(nodes, EntryPath(dir, names[n]))
        case Err(e) => Err(e)
        case Ok(s) => Ok(stats + [s])
  }

  /** A `stat` failure among the first `k` entries is the failure of all. */
  lemma StatAllPrefixError(nodes: Nodes, dir: string, names: seq<string>, k: nat)
    requires k <= |names|
    requires StatAll(nodes, dir, names[..k]).Err?
    ensures StatAll(nodes, dir, names) == StatAll(nodes, dir, names[..k])
  {
    var r := StatAll(nodes, dir, names);
    assert forall j :: 0 <= j < k ==> names[..k][j] == names[j];
    var i :| 0 <= i < k && StatAt(nodes, EntryPath(dir, names[i])) == Err(StatAll(nodes, dir, names[..k]).error)
             && forall j :: 0 <= j < i ==> StatAt(nodes, EntryPath(dir, names[j])).Ok?;
    assert r.Err?;
    var i' :| 0 <= i' < |names| && StatAt(nodes, EntryPath(dir, names[i'])) == Err(r.error)
              && forall j :: 0 <= j < i' ==> StatAt(nodes, EntryPath(dir, names[j])).Ok?;
    assert i == i';
  }


  /** The positions, in increasing order, of the stats of kind `kind`. */
  function Positions(stats: seq<Stats>, kind: Kind): (ix: seq<nat>)
    ensures forall j :: 0 <= j < |ix| ==> ix[j] < |stats| && stats[ix[j]].kind == kind
    ensures forall j, j' :: 0 <= j < j' < |ix| ==> ix[j] < ix[j']
    ensures forall i :: 0 <= i < |stats| && stats[i].kind == kind ==> i in ix
  {
    if stats == [] then []
    else
      var n := |stats| - 1;
      Positions(stats[..n], kind) + (if stats[n].kind == kind then [n] else [])
  }

  /** The loop of getContainers: one Container per entry whose stat is a
      directory. Entry and stat are paired by position. */
  function DirectoryContainers(names: seq<string>, stats: seq<Stats>): (cs: seq<Container>)
    requires |names| == |stats|
    ensures |cs| <= |names|
    ensures forall c :: c in cs ==> c.name in names
  {
    if stats == [] then []
    else
      var n := |stats| - 1;
      DirectoryContainers(names[..n], stats[..n])
      + (if stats[n].IsDirectory() then [ContainerFor(names[n], stats[n])] else [])
  }

  /** The loop of getFiles: one File per entry whose stat is a regular file. */
  function RegularFiles(container: string, names: seq<string>, stats: seq<Stats>): (fs: seq<File>)
    requires |names| == |stats|
    ensures |fs| <= |names|
    ensures forall f :: f in fs ==> f.container == container && f.name in names
  {
    if stats == [] then []
    else
      var n := |stats| - 1;
      RegularFiles(container, names[..n], stats[..n])
      + (if stats[n].IsFile() then [FileFor(container, names[n], stats[n])] else [])
  }

  /** Taking one more entry appends that entry's container, if it is a
      directory. */
  lemma DirectoryContainersStep(names: seq<string>, stats: seq<Stats>, i: nat)
    requires |names| == |stats| && i < |names|
    ensures DirectoryContainers(names[..i + 1], stats[..i + 1])
         == DirectoryContainers(names[..i], stats[..i])
            + (if stats[i].IsDirectory() then [ContainerFor(names[i], stats[i])] else [])
  {
    assert names[..i + 1][..i] == names[..i];
    assert stats[..i + 1][..i] == stats[..i];
  }

  /** Taking one more entry appends that entry's file, if it is one. */
  lemma RegularFilesStep(container: string, names: seq<string>, stats: seq<Stats>, i: nat)
    requires |names| == |stats| && i < |names|
    ensures RegularFiles(container, names[..i + 1], stats[..i + 1])
         == RegularFiles(container, names[..i], stats[..i])
            + (if stats[i].IsFile() then [FileFor(container, names[i], stats[i])] else [])
  {
    assert names[..i + 1][..i] == names[..i];
    assert stats[..i + 1][..i] == stats[..i];
  }

  /** getContainers returns exactly the directory entries, in listing
      order, each named by the entry at its own position. */
  lemma {:induction false} DirectoryContainersFollowListing(names: seq<string>, stats: seq<Stats>)
    requires |names| == |stats|
    ensures var cs, ix := DirectoryContainers(names, stats), Positions(stats, Directory);
      |cs| == |ix| && forall j :: 0 <= j < |ix| ==> cs[j] == ContainerFor(names[ix[j]], stats[ix[j]])
  {
    if stats != [] {
      var n := |stats| - 1;
      DirectoryContainersFollowListing(names[..n], stats[..n]);
    }
  }

  /** getFiles returns exactly the regular-file entries, in listing order,
      each named by the entry at its own position. */
  lemma {:induction false} RegularFilesFollowListing(container: string, names: seq<string>, stats: seq<Stats>)
    requires |names| == |stats|
    ensures var fs, ix := RegularFiles(container, names, stats), Positions(stats, RegularFile);
      |fs| == |ix| && forall j :: 0 <= j < |ix| ==> fs[j] == FileFor(container, names[ix[j]], stats[ix[j]])
  {
    if stats != [] {
      var n := |stats| - 1;
      RegularFilesFollowListing(container, names[..n], stats[..n]);
    }
  }

  /** getContainers: list the root, stat every entry, keep the directories. */
  function GetContainers(nodes: Nodes, root: string): (r: Result<seq<Container>>)
    ensures r.Ok? ==> root in nodes && nodes[root].DirNode?
    ensures r.Ok? ==> |r.value| <= |nodes[root].entries|
                      && forall c :: c in r.value ==> c.name in nodes[root].entries
  {
    match ReaddirAt(nodes, root)
    case Err(e) => Err(e)
    case Ok(names) =>
      match StatAll(nodes, root, names)
      case Err(e) => Err(e)
      case Ok(stats) => Ok(DirectoryContainers(names, stats))
  }

  /** createContainer: validate, `mkdir` with the options, then `stat`. */
  function CreateContainer(nodes: Nodes, root: string, options: ContainerOptions, created: Attrs)
    : (r: (Nodes, Result<Container>))
    ensures r.1.Err? ==> r.0 == nodes
    ensures r.1.Ok? ==>
      var dir := ContainerPath(root, options.name);
      && IsValidName(options.name)
      && dir !in nodes
      && r.0.Keys == nodes.Keys + {dir}
      && r.0[dir] == DirNode([], created, options.mode)
      && r.1.value == Container(options.name, created.size, created.atime, created.mtime, created.ctime)
    ensures r.1.Ok? ==>
      var dir := ContainerPath(root, options.name);
      && Parent(dir).Some?
      && (forall q :: q in nodes && q != Parent(dir).value.0 ==> r.0[q] == nodes[q])
      && (var (d, n) := Parent(dir).value;
          d in nodes && nodes[d].DirNode? && r.0[d] == nodes[d].(entries := nodes[d].entries + [n]))
  {
    var v := ValidateName(options.name);
    if v.Err? then (nodes, Err(v.error))
    else
      var dir := ContainerPath(root, options.name);
      assert dir[|root|] == '/';
      var (made, r) := MkdirAt(nodes, dir, options.mode, created);
      if r.Err? then (made, Err(r.error))
      else
        match StatAt(made, dir)
        case Err(e) => (made, Err(e))
        case Ok(stat) => (made, Ok(ContainerFor(options.name, stat)))
  }

  /** One `unlink` per entry of `dir`, every one attempted; the new state
      and the first failure, if any. */
  function UnlinkAll(nodes: Nodes, dir: string, names: seq<string>): (Nodes, Option<Error>)
    decreases |names|
  {
    if names == [] then (nodes, None)
    else
      var n := |names| - 1;
      var (before, first) := UnlinkAll(nodes, dir, names[..n]);
      var (after, r) := UnlinkAt(before, EntryPath(dir, names[n]));
      (after, if first.Some? then first else if r.Err? then Some(r.error) else None)
  }

  /** Taking one more entry performs its unlink in the state left by the
      earlier ones and keeps the first failure. */
  lemma UnlinkAllStep(nodes: Nodes, dir: string, names: seq<string>, i: nat)
    requires i < |names|
    ensures var (before, first) := UnlinkAll(nodes, dir, names[..i]);
      var (after, r) := UnlinkAt(before, EntryPath(dir, names[i]));
      UnlinkAll(nodes, dir, names[..i + 1])
        == (after, if first.Some? then first else if r.Err? then Some(r.error) else None)
  {
    assert names[..i + 1][..i] == names[..i];
  }

  /** `after` has lost paths of `nodes` but no directory, and every path
      it keeps has the kind it had. */
  predicate Shrunk(nodes: Nodes, after: Nodes) {
    && after.Keys <= nodes.Keys
    && (forall q :: q in after ==> (after[q].DirNode? <==> nodes[q].DirNode?))
    && (forall q :: q in nodes && nodes[q].DirNode? ==> q in after)
  }

  /** An unlink keeps a state shrunk from `nodes` shrunk, and removes its
      target when that was a non-directory of `nodes`. */
  lemma UnlinkShrinks(nodes: Nodes, before: Nodes, p: string)
    requires Shrunk(nodes, before)
    ensures Shrunk(nodes, UnlinkAt(before, p).0)
    ensures p in nodes && !nodes[p].DirNode? ==> p !in UnlinkAt(before, p).0
  {
    UnlinkFrame(before, p);
  }

  /** The unlinks remove paths and add none; they keep every directory and
      what kind each remaining path is; and every entry that was a
      non-directory is gone afterwards, whatever failed before it. */
  lemma {:induction false} UnlinkAllFrame(nodes: Nodes, dir: string, names: seq<string>)
    ensures Shrunk(nodes, UnlinkAll(nodes, dir, names).0)
    ensures forall i :: (0 <= i < |names| && EntryPath(dir, names[i]) in nodes
                         && !nodes[EntryPath(dir, names[i])].DirNode?) ==> EntryPath(dir, names[i]) !in UnlinkAll(nodes, dir, names).0
    decreases |names|
  {
    if names != [] {
      var n := |names| - 1;
      var prefix := names[..n];
      UnlinkAllFrame(nodes, dir, prefix);
      var before := UnlinkAll(nodes, dir, prefix).0;
      var after := UnlinkAll(nodes, dir, names).0;
      UnlinkShrinks(nodes, before, EntryPath(dir, names[n]));
      assert after == UnlinkAt(before, EntryPath(dir, names[n])).0;
      forall i | 0 <= i < n
        ensures prefix[i] == names[i]
      {
      }
    }
  }

  /** The result of each unlink, in listing order. */
  function UnlinkOutcomes(nodes: Nodes, dir: string, names: seq<string>): (rs: seq<Result<()>>)
    ensures |rs| == |names|
    decreases |names|
  {
    if names == [] then []
    else
      var n := |names| - 1;
      UnlinkOutcomes(nodes, dir, names[..n])
      + [UnlinkAt(UnlinkAll(nodes, dir, names[..n]).0, EntryPath(dir, names[n])).1]
  }

  /** The outcomes of the first `k` entries are the first `k` outcomes. */
  lemma {:induction false} UnlinkOutcomesPrefix(nodes: Nodes, dir: string, names: seq<string>, k: nat)
    requires k <= |names|
    ensures UnlinkOutcomes(nodes, dir, names)[..k] == UnlinkOutcomes(nodes, dir, names[..k])
    decreases |names|
  {
    if k < |names| {
      var n := |names| - 1;
      UnlinkOutcomesPrefix(nodes, dir, names[..n], k);
      assert names[..n][..k] == names[..k];
    } else {
      assert names[..k] == names;
    }
  }

  /** The `i`-th outcome is that of the unlink of entry `i`, made in the
      state the unlinks of the entries before it left. */
  lemma UnlinkOutcomesAreSteps(nodes: Nodes, dir: string, names: seq<string>, i: nat)
    requires i < |names|
    ensures UnlinkOutcomes(nodes, dir, names)[i]
         == UnlinkAt(UnlinkAll(nodes, dir, names[..i]).0, EntryPath(dir, names[i])).1
  {
    UnlinkOutcomesPrefix(nodes, dir, names, i + 1);
    assert names[..i + 1][..i] == names[..i];
    assert UnlinkOutcomes(nodes, dir, names)[i] == UnlinkOutcomes(nodes, dir, names)[..i + 1][i];
  }

  /** The first error among results taken in order: none iff every result
      is a success, and otherwise the error of the first failure. */
  function FirstError(rs: seq<Result<()>>): (e: Option<Error>)
    ensures e.None? <==> forall i :: 0 <= i < |rs| ==> rs[i].Ok?
    ensures e.Some? ==>
      exists i :: 0 <= i < |rs| && rs[i] == Err(e.value) && forall j :: 0 <= j < i ==> rs[j].Ok?
  {
    if rs == [] then None
    else
      var n := |rs| - 1;
      assert forall j :: 0 <= j < n ==> rs[..n][j] == rs[j];
      match FirstError(rs[..n])
      case Some(e) => Some(e)
      case None => if rs[n].Err? then Some(rs[n].error) else None
  }

  /** The error the unlinks report is the first error among their
      outcomes in listing order. */
  lemma {:induction false} UnlinkAllFirstFailure(nodes: Nodes, dir: string, names: seq<string>)
    ensures UnlinkAll(nodes, dir, names).1 == FirstError(UnlinkOutcomes(nodes, dir, names))
    decreases |names|
  {
    if names != [] {
      var n := |names| - 1;
      var prefix := names[..n];
      UnlinkAllFirstFailure(nodes, dir, prefix);
      var rs := UnlinkOutcomes(nodes, dir, names);
      assert rs[..n] == UnlinkOutcomes(nodes, dir, prefix);
    }
  }

  /** destroyContainer: validate, list the directory, unlink every entry,
      and `rmdir` only when every unlink succeeded. */
  function DestroyContainer(nodes: Nodes, root: string, name: string): (r: (Nodes, Result<()>))
    ensures r.0.Keys <= nodes.Keys
    ensures r.1.Ok? ==> ContainerPath(root, name) in nodes && ContainerPath(root, name) !in r.0
    ensures forall q :: q in nodes && nodes[q].DirNode? && q != ContainerPath(root, name) ==>
      q in r.0 && r.0[q].DirNode?
  {
    var v := ValidateName(name);
    if v.Err? then (nodes, Err(v.error))
    else
      var dir := ContainerPath(root, name);
      match ReaddirAt(nodes, dir)
      case Err(e) => (nodes, Err(e))
      case Ok(names) =>
        UnlinkAllFrame(nodes, dir, names);
        var (cleared, first) := UnlinkAll(nodes, dir, names);
        if first.Some? then (cleared, Err(first.value))
        else RmdirAt(cleared, dir)
  }

  /** getContainer: validate, then `stat` the directory. */
  function GetContainer(nodes: Nodes, root: string, name: string): (r: Result<Container>)
    ensures r.Ok? <==> IsValidName(name) && ContainerPath(root, name) in nodes
    ensures r.Ok? ==> r.value == ContainerFor(name, StatsOf(nodes[ContainerPath(root, name)]))
  {
    var v := ValidateName(name);
    if v.Err? then Err(v.error)
    else
      match StatAt(nodes, ContainerPath(root, name))
      case Err(e) => Err(e)
      case Ok(stat) => Ok(ContainerFor(name, stat))
  }

  /** getFiles: validate, list the container, stat every entry, keep the
      regular files. */
  function GetFiles(nodes: Nodes, root: string, container: string): (r: Result<seq<File>>)
    ensures r.Ok? ==>
      var dir := ContainerPath(root, container);
      && IsValidName(container) && dir in nodes && nodes[dir].DirNode?
      && |r.value| <= |nodes[dir].entries|
      && forall f :: f in r.value ==> f.container == container && f.name in nodes[dir].entries
  {
    var v := ValidateName(container);
    if v.Err? then Err(v.error)
    else
      var dir := ContainerPath(root, container);
      match ReaddirAt(nodes, dir)
      case Err(e) => Err(e)
      case Ok(names) =>
        match StatAll(nodes, dir, names)
        case Err(e) => Err(e)
        case Ok(stats) => Ok(RegularFiles(container, names, stats))
  }

  /** getFile: validate the container, then the file, then `stat`. */
  function GetFile(nodes: Nodes, root: string, container: string, file: string): (r: Result<File>)
    ensures r.Ok? <==> IsValidName(container) && IsValidName(file) && ObjectPath(root, container, file) in nodes
    ensures r.Ok? ==> r.value == FileFor(container, file, StatsOf(nodes[ObjectPath(root, container, file)]))
  {
    var vc := ValidateName(container);
    if vc.Err? then Err(vc.error)
    else
      var vf := ValidateName(file);
      if vf.Err? then Err(vf.error)
      else
        match StatAt(nodes, ObjectPath(root, container, file))
        case Err(e) => Err(e)
        case Ok(stat) => Ok(FileFor(container, file, stat))
  }

  /** removeFile: validate the container, then the file, then `unlink`. */
  function RemoveFile(nodes: Nodes, root: string, container: string, file: string): (r: (Nodes, Result<()>))
    ensures var path := ObjectPath(root, container, file);
      r.1.Ok? <==> IsValidName(container) && IsValidName(file) && path in nodes && !nodes[path].DirNode?
    ensures r.1.Err? ==> r.0 == nodes
    ensures r.1.Ok? ==> r.0.Keys == nodes.Keys - {ObjectPath(root, container, file)}
    ensures IsValidName(container) && IsValidName(file) ==> r == UnlinkAt(nodes, ObjectPath(root, container, file))
  {
    var vc := ValidateName(container);
    if vc.Err? then (nodes, Err(vc.error))
    else
      var vf := ValidateName(file);
      if vf.Err? then (nodes, Err(vf.error))
      else UnlinkAt(nodes, ObjectPath(root, container, file))
  }
}
