/** The remote filesystem the provider talks to, as state: a map from a
    path to what is stored there. Each primitive the provider calls
    (readdir, stat, mkdir, unlink, rmdir) is a function of that state giving
    the new state and a result, and a method of `FileSystem` applies it. */
module RemoteFs {
  import opened Outcomes
  import opened Paths

  datatype Kind = Directory | RegularFile | Special

  /** The stat fields the provider copies; their values are opaque. */
  datatype Attrs = Attrs(size: int, atime: int, mtime: int, ctime: int)

  /** What `stat` reports about a path. */
  datatype Stats = Stats(kind: Kind, attrs: Attrs) {
    predicate IsDirectory() { kind == Directory }
    predicate IsFile() { kind == RegularFile }
  }

  /** A directory keeps its entry names in listing order. `OtherNode` stands for
      what is neither a directory nor a regular file (a socket, a fifo). */
  datatype Node =
    | DirNode(entries: seq<string>, attrs: Attrs, mode: Option<int>)
    | FileNode(attrs: Attrs)
    | OtherNode(attrs: Attrs)

  type Nodes = map<string, Node>

  function StatsOf(n: Node): (s: Stats)
    ensures s.IsDirectory() <==> n.DirNode?
    ensures s.IsFile() <==> n.FileNode?
    ensures s.attrs == n.attrs
  {
    match n
    case DirNode(_, a, _) => Stats(Directory, a)
    case FileNode(a) => Stats(RegularFile, a)
    case OtherNode(a) => Stats(Special, a)
  }

  /** `s` with every occurrence of `x` taken out, the rest in order. */
  function Without(s: seq<string>, x: string): (r: seq<string>)
    ensures forall y :: y in r <==> y in s && y != x
    ensures |r| <= |s|
  {
    if s == [] then []
    else (if s[0] == x then [] else [s[0]]) + Without(s[1..], x)
  }

  lemma {:induction false} WithoutFirst(s: seq<string>)
    requires |s| > 0 && s[0] !in s[1..]
    ensures Without(s, s[0]) == s[1..]
  {
    WithoutAbsent(s[1..], s[0]);
  }

  lemma {:induction false} WithoutAbsent(s: seq<string>, x: string)
    requires x !in s
    ensures Without(s, x) == s
  {
    if s != [] {
      WithoutAbsent(s[1..], x);
    }
  }

  /** Drops the name of `p` from the listing of its parent directory. */
  function Detach(nodes: Nodes, p: string): (r: Nodes)
    ensures r.Keys == nodes.Keys
    ensures forall q :: q in nodes ==> (r[q].DirNode? <==> nodes[q].DirNode?)
    ensures forall q :: q in nodes && (Parent(p).None? || q != Parent(p).value.0) ==> r[q] == nodes[q]
  {
    match Parent(p)
    case None => nodes
    case Some((d, n)) =>
      if d in nodes && nodes[d].DirNode?
      then nodes[d := nodes[d].(entries := Without(nodes[d].entries, n))]
      else nodes
  }

  /** Adds the name of `p` at the end of the listing of its parent. */
  function Attach(nodes: Nodes, p: string): (r: Nodes)
    ensures r.Keys == nodes.Keys
    ensures forall q :: q in nodes && (Parent(p).None? || q != Parent(p).value.0) ==> r[q] == nodes[q]
  {
    match Parent(p)
    case None => nodes
    case Some((d, n)) =>
      if d in nodes && nodes[d].DirNode?
      then nodes[d := nodes[d].(entries := nodes[d].entries + [n])]
      else nodes
  }

  function ReaddirAt(nodes: Nodes, p: string): Result<seq<string>> {
    if p !in nodes then Err(Remote(NoEntry, p))
    else if nodes[p].DirNode? then Ok(nodes[p].entries)
    else Err(Remote(NotADirectory, p))
  }

  function StatAt(nodes: Nodes, p: string): Result<Stats> {
    if p !in nodes then Err(Remote(NoEntry, p)) else Ok(StatsOf(nodes[p]))
  }

  /** `mkdir`: a new empty directory, with the requested mode and the
      server's attributes `created`, listed at the end of its parent. */
  function MkdirAt(nodes: Nodes, p: string, mode: Option<int>, created: Attrs): (Nodes, Result<()>) {
    if p in nodes then (nodes, Err(Remote(AlreadyExists, p)))
    else if Parent(p).Some? && Parent(p).value.0 !in nodes
    then (nodes, Err(Remote(NoEntry, Parent(p).value.0)))
    else if Parent(p).Some? && !nodes[Parent(p).value.0].DirNode?
    then (nodes, Err(Remote(NotADirectory, Parent(p).value.0)))
    else (Attach(nodes[p := DirNode([], created, mode)], p), Ok(()))
  }

  /** `unlink`: removes anything but a directory. */
  function UnlinkAt(nodes: Nodes, p: string): (Nodes, Result<()>) {
    if p !in nodes then (nodes, Err(Remote(NoEntry, p)))
    else if nodes[p].DirNode? then (nodes, Err(Remote(IsADirectory, p)))
    else (Detach(nodes - {p}, p), Ok(()))
  }

  /** `rmdir`: removes an empty directory. */
  function RmdirAt(nodes: Nodes, p: string): (Nodes, Result<()>) {
    if p !in nodes then (nodes, Err(Remote(NoEntry, p)))
    else if !nodes[p].DirNode? then (nodes, Err(Remote(NotADirectory, p)))
    else if nodes[p].entries != [] then (nodes, Err(Remote(NotEmpty, p)))
    else (Detach(nodes - {p}, p), Ok(()))
  }

  /** Unlink removes its target on success and nothing else; it drops the
      target's name from the listing of its parent and changes nothing else
      of the parent; it never removes a directory. */
  lemma UnlinkFrame(nodes: Nodes, p: string)
    ensures var (after, r) := UnlinkAt(nodes, p);
      && (r.Ok? <==> p in nodes && !nodes[p].DirNode?)
      && after.Keys == (if r.Ok? then nodes.Keys - {p} else nodes.Keys)
      && (forall q :: q in after ==> (after[q].DirNode? <==> nodes[q].DirNode?))
      && (forall q :: q in after && (Parent(p).None? || q != Parent(p).value.0) ==> after[q] == nodes[q])
      && (r.Ok? && Parent(p).Some? && Parent(p).value.0 in nodes ==>
            var (d, n) := Parent(p).value;
            && d in after
            && after[d] == (if nodes[d].DirNode? then nodes[d].(entries := Without(nodes[d].entries, n)) else nodes[d]))
  {
  }

  /** Unlinking a non-directory entry `e` of a directory `dir` removes it
      and drops `e` from the listing of `dir`. */
  lemma UnlinkEntry(nodes: Nodes, dir: string, e: string)
    requires '/' !in e
    requires dir in nodes && nodes[dir].DirNode?
    requires Join(dir, e) in nodes && !nodes[Join(dir, e)].DirNode?
    ensures UnlinkAt(nodes, Join(dir, e))
         == ((nodes - {Join(dir, e)})[dir := nodes[dir].(entries := Without(nodes[dir].entries, e))], Ok(()))
  {
    ParentOfJoin(dir, e);
    assert Join(dir, e) != dir by { assert |Join(dir, e)| > |dir|; }
  }

  /** The remote filesystem as seen through the session. */
  class FileSystem {
    var nodes: Nodes

    constructor (nodes: Nodes)
      ensures this.nodes == nodes
    {
      this.nodes := nodes;
    }

    method Readdir(p: string) returns (r: Result<seq<string>>)
      ensures r == ReaddirAt(nodes, p)
    {
      r := ReaddirAt(nodes, p);
    }

    method Stat(p: string) returns (r: Result<Stats>)
      ensures r == StatAt(nodes, p)
    {
      r := StatAt(nodes, p);
    }

    method Mkdir(p: string, mode: Option<int>, created: Attrs) returns (r: Result<()>)
      modifies this
      ensures (nodes, r) == MkdirAt(old(nodes), p, mode, created)
    {
      var step := MkdirAt(nodes, p, mode, created);
      nodes, r := step.0, step.1;
    }

    method Unlink(p: string) returns (r: Result<()>)
      modifies this
      ensures (nodes, r) == UnlinkAt(old(nodes), p)
    {
      var step := UnlinkAt(nodes, p);
      nodes, r := step.0, step.1;
    }

    method Rmdir(p: string) returns (r: Result<()>)
      modifies this
      ensures (nodes, r) == RmdirAt(old(nodes), p)
    {
      var step := RmdirAt(nodes, p);
      nodes, r := step.0, step.1;
    }
  }
}
