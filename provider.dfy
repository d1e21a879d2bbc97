/** `SFTPProvider`: the storage provider over one remote filesystem rooted
    at `root`. Each operation returns its result instead of passing it to a
    callback, and is proved to do what its specification in ProviderSpec
    says. */
module Provider {
  import opened Outcomes
  import opened Names
  import opened Paths
  import opened RemoteFs
  import opened Records
  import ProviderSpec

  /** Options of upload. An absent field and a falsy one (`""`, `0`) are
      the same to the provider. */
  datatype UploadOptions = UploadOptions(
    container: string, remote: string,
    flags: Option<string>, encoding: Option<string>, mode: Option<int>)

  /** Options of download. */
  datatype DownloadOptions = DownloadOptions(
    container: string, remote: string, start: Option<int>, end: Option<int>)

  /** Options of getUrl. */
  datatype UrlOptions = UrlOptions(container: string, path: string)

  datatype ByteRange = ByteRange(start: int, end: Option<int>)

  /** What upload returns: a stream that will emit `error`, or a write
      stream opened on `path` with these options. */
  datatype WriteStream =
    | WriteErrorStream(error: Error)
    | WriteTarget(path: string, flags: string, encoding: Option<string>, mode: int)

  /** What download returns: a stream that will emit `error`, or a read
      stream opened on `path` with these options. */
  datatype ReadStream =
    | ReadErrorStream(error: Error)
    | ReadTarget(path: string, flags: string, autoClose: bool, range: Option<ByteRange>)

  const DefaultWriteFlags: string := "w+"
  /** `parseInt('0666', 8)`. */
  const DefaultFileMode: int := 6 * 64 + 6 * 8 + 6

  predicate FalsyString(s: Option<string>) {
    s.None? || s.value == ""
  }

  predicate FalsyNumber(n: Option<int>) {
    n.None? || n.value == 0
  }

  /** Who receives the result of getFiles. */
  datatype Callback = DefaultErrorCallback | CallerCallback(id: nat)

  /** The JavaScript kinds the `options` argument of getFiles can have. */
  datatype OptionsArg = FunctionArg(id: nat) | RegExpArg | ObjectArg | MissingArg

  /** getFiles takes a function passed as `options` as its callback
      (`typeof` of a RegExp is not "function"); otherwise the `cb` given,
      or the default logging callback when there is none. */
  function FilesCallback(options: OptionsArg, cb: Option<nat>): (r: Callback)
    ensures options.FunctionArg? ==> r == CallerCallback(options.id)
    ensures !options.FunctionArg? && cb.Some? ==> r == CallerCallback(cb.value)
    ensures !options.FunctionArg? && cb.None? ==> r == DefaultErrorCallback
  {
    if options.FunctionArg? then CallerCallback(options.id)
    else if cb.Some? then CallerCallback(cb.value)
    else DefaultErrorCallback
  }

  class SftpProvider {
    const root: string
    /** The session's view of the remote filesystem. */
    const fs: FileSystem

    constructor (root: string, fs: FileSystem)
      ensures this.root == root && this.fs == fs
    {
      this.root := root;
      this.fs := fs;
    }

    /** The stat of every entry, in listing order; the first failure ends it. */
    method StatEntries(dir: string, names: seq<string>) returns (r: Result<seq<Stats>>)
      ensures r == ProviderSpec.StatAll(fs.nodes, dir, names)
    {
      var stats: seq<Stats> := [];
      var i := 0;
      while i < |names|
        invariant 0 <= i <= |names|
        invariant ProviderSpec.StatAll(fs.nodes, dir, names[..i]) == Ok(stats)
      {
        var s := fs.Stat(EntryPath(dir, names[i]));
        assert names[..i + 1][..i] == names[..i];
        if s.Err? {
          ProviderSpec.StatAllPrefixError(fs.nodes, dir, names, i + 1);
          return Err(s.error);
        }
        stats := stats + [s.value];
        i := i + 1;
      }
      assert names[..i] == names;
      r := Ok(stats);
    }

    /** getContainers: the directories among the entries of the root. */
    method GetContainers() returns (r: Result<seq<Container>>)
      ensures r == ProviderSpec.GetContainers(fs.nodes, root)
    {
      var listing := fs.Readdir(root);
      if listing.Err? {
        return Err(listing.error);
      }
      var files := listing.value;
      var statted := StatEntries(root, files);
      if statted.Err? {
        return Err(statted.error);
      }
      var fileStats := statted.value;
      var containers: seq<Container> := [];
      var i := 0;
      while i < |fileStats|
        invariant 0 <= i <= |fileStats|
        invariant containers == ProviderSpec.DirectoryContainers(files[..i], fileStats[..i])
      {
        ProviderSpec.DirectoryContainersStep(files, fileStats, i);
        if fileStats[i].IsDirectory() {
          var props := new Props(files[i], None);
          props := PopulateMetadata(fileStats[i], props);
          containers := containers + [props.ToContainer()];
        }
        i := i + 1;
      }
      assert files[..i] == files && fileStats[..i] == fileStats;
      r := Ok(containers);
    }

    /** createContainer: `mkdir` the validated name with the options, then
      `stat` it. `created` stands for the attributes the server gives the
      new directory. */
    method CreateContainer(options: ProviderSpec.ContainerOptions, created: Attrs)
      returns (r: Result<Container>)
      modifies fs
      ensures (fs.nodes, r) == ProviderSpec.CreateContainer(old(fs.nodes), root, options, created)
    {
      var v := ValidateName(options.name);
      if v.Err? {
        return Err(v.error);
      }
      var dir := ContainerPath(root, options.name);
      var made := fs.Mkdir(dir, options.mode, created);
      if made.Err? {
        return Err(made.error);
      }
      var stat := fs.Stat(dir);
      if stat.Err? {
        return Err(stat.error);
      }
      var props := new Props(options.name, None);
      props := PopulateMetadata(stat.value, props);
      r := Ok(props.ToContainer());
    }

    /** destroyContainer: unlink every entry, then `rmdir` when all the
      unlinks succeeded; otherwise the first failure. */
    method DestroyContainer(name: string) returns (r: Result<()>)
      modifies fs
      ensures (fs.nodes, r) == ProviderSpec.DestroyContainer(old(fs.nodes), root, name)
    {
      var v := ValidateName(name);
      if v.Err? {
        return Err(v.error);
      }
      var dir := ContainerPath(root, name);
      var listing := fs.Readdir(dir);
      if listing.Err? {
        return Err(listing.error);
      }
      var files := listing.value;
      var first: Option<Error> := None;
      var i := 0;
      while i < |files|
        invariant 0 <= i <= |files|
        invariant (fs.nodes, first) == ProviderSpec.UnlinkAll(old(fs.nodes), dir, files[..i])
      {
        ProviderSpec.UnlinkAllStep(old(fs.nodes), dir, files, i);
        var u := fs.Unlink(EntryPath(dir, files[i]));
        if first.None? && u.Err? {
          first := Some(u.error);
        }
        i := i + 1;
      }
      assert files[..i] == files;
      if first.Some? {
        return Err(first.value);
      }
      r := fs.Rmdir(dir);
    }

    /** getContainer: `stat` the validated container. */
    method GetContainer(name: string) returns (r: Result<Container>)
      ensures r == ProviderSpec.GetContainer(fs.nodes, root, name)
    {
      var v := ValidateName(name);
      if v.Err? {
        return Err(v.error);
      }
      var stat := fs.Stat(ContainerPath(root, name));
      if stat.Err? {
        return Err(stat.error);
      }
      var props := new Props(name, None);
      props := PopulateMetadata(stat.value, props);
      r := Ok(props.ToContainer());
    }

    /** getFiles: the regular files among the entries of the container,
        and the callback that receives them, chosen from `options` and `cb`
        before anything else is done. */
    method GetFiles(container: string, options: OptionsArg, cb: Option<nat>)
      returns (receiver: Callback, r: Result<seq<File>>)
      ensures receiver == FilesCallback(options, cb)
      ensures r == ProviderSpec.GetFiles(fs.nodes, root, container)
    {
      receiver := FilesCallback(options, cb);
      var v := ValidateName(container);
      if v.Err? {
        r := Err(v.error);
        return;
      }
      var dir := ContainerPath(root, container);
      var listing := fs.Readdir(dir);
      if listing.Err? {
        r := Err(listing.error);
        return;
      }
      var remoteFiles := listing.value;
      var statted := StatEntries(dir, remoteFiles);
      if statted.Err? {
        r := Err(statted.error);
        return;
      }
      var fileStats := statted.value;
      var files: seq<File> := [];
      var i := 0;
      while i < |fileStats|
        invariant 0 <= i <= |fileStats|
        invariant files == ProviderSpec.RegularFiles(container, remoteFiles[..i], fileStats[..i])
      {
        ProviderSpec.RegularFilesStep(container, remoteFiles, fileStats, i);
        if fileStats[i].IsFile() {
          var props := new Props(remoteFiles[i], Some(container));
          props := PopulateMetadata(fileStats[i], props);
          files := files + [props.ToFile()];
        }
        i := i + 1;
      }
      assert remoteFiles[..i] == remoteFiles && fileStats[..i] == fileStats;
      r := Ok(files);
    }

    /** getFile: validate the container, then the file, then `stat`. */
    method GetFile(container: string, file: string) returns (r: Result<File>)
      ensures r == ProviderSpec.GetFile(fs.nodes, root, container, file)
    {
      var vc := ValidateName(container);
      if vc.Err? {
        return Err(vc.error);
      }
      var vf := ValidateName(file);
      if vf.Err? {
        return Err(vf.error);
      }
      var stat := fs.Stat(ObjectPath(root, container, file));
      if stat.Err? {
        return Err(stat.error);
      }
      var props := new Props(file, Some(container));
      props := PopulateMetadata(stat.value, props);
      r := Ok(props.ToFile());
    }

    /** removeFile: validate the container, then the file, then `unlink`. */
    method RemoveFile(container: string, file: string) returns (r: Result<()>)
      modifies fs
      ensures (fs.nodes, r) == ProviderSpec.RemoveFile(old(fs.nodes), root, container, file)
    {
      var vc := ValidateName(container);
      if vc.Err? {
        return Err(vc.error);
      }
      var vf := ValidateName(file);
      if vf.Err? {
        return Err(vf.error);
      }
      r := fs.Unlink(ObjectPath(root, container, file));
    }

    /** upload: an error stream when the container (checked first) or the
      remote name is invalid, whatever the reason, with the
      "{{SFTPProvider}}: Invalid name" error; otherwise a write stream on
      the object's path, with each falsy option replaced by its default. */
    function Upload(options: UploadOptions): (r: WriteStream)
      ensures r.WriteErrorStream? <==> !IsValidName(options.container) || !IsValidName(options.remote)
      ensures !IsValidName(options.container) ==> r == WriteErrorStream(BadName(options.container))
      ensures IsValidName(options.container) && !IsValidName(options.remote)
              ==> r == WriteErrorStream(BadName(options.remote))
      ensures r.WriteTarget? ==>
        && r.path == ObjectPath(root, options.container, options.remote)
        && r.flags == (if FalsyString(options.flags) then DefaultWriteFlags else options.flags.value)
        && r.encoding == (if FalsyString(options.encoding) then None else options.encoding)
        && r.mode == (if FalsyNumber(options.mode) then DefaultFileMode else options.mode.value)
    {
      if !IsValidName(options.container) then WriteErrorStream(BadName(options.container))
      else if !IsValidName(options.remote) then WriteErrorStream(BadName(options.remote))
      else
        WriteTarget(
          ObjectPath(root, options.container, options.remote),
          if options.flags.Some? && options.flags.value != "" then options.flags.value else DefaultWriteFlags,
          if options.encoding.Some? && options.encoding.value != "" then options.encoding else None,
          if options.mode.Some? && options.mode.value != 0 then options.mode.value else DefaultFileMode)
    }

    /** download: the same error streams as upload; otherwise a read stream
      on the object's path opened with flags "r" and autoClose, with a byte
      range only when `start` is truthy. */
    function Download(options: DownloadOptions): (r: ReadStream)
      ensures r.ReadErrorStream? <==> !IsValidName(options.container) || !IsValidName(options.remote)
      ensures !IsValidName(options.container) ==> r == ReadErrorStream(BadName(options.container))
      ensures IsValidName(options.container) && !IsValidName(options.remote)
              ==> r == ReadErrorStream(BadName(options.remote))
      ensures r.ReadTarget? ==>
        && r.path == ObjectPath(root, options.container, options.remote)
        && r.flags == "r" && r.autoClose
        && (r.range.Some? <==> !FalsyNumber(options.start))
        && (r.range.Some? ==> r.range.value == ByteRange(options.start.value, options.end))
    {
      if !IsValidName(options.container) then ReadErrorStream(BadName(options.container))
      else if !IsValidName(options.remote) then ReadErrorStream(BadName(options.remote))
      else
        var range := if options.start.Some? && options.start.value != 0
                     then Some(ByteRange(options.start.value, options.end)) else None;
        ReadTarget(ObjectPath(root, options.container, options.remote), "r", true, range)
    }

    /** getUrl: the normalised root/container/path, with no validation. */
    function GetUrl(options: UrlOptions): (r: string)
      ensures '\\' !in r
      ensures |r| == |root| + |options.container| + |options.path| + 2
      ensures r == NormalizePath(root) + "/" + NormalizePath(options.container) + "/" + NormalizePath(options.path)
    {
      NormalizeJoin(Join(root, options.container), options.path);
      NormalizeJoin(root, options.container);
      ObjectPath(root, options.container, options.path)
    }
  }

  /** Falsy upload options fall back to the defaults: mode 0 becomes 0o666,
      an empty flags string becomes "w+", an empty encoding becomes null. */
  lemma UploadFallsBackToDefaults(p: SftpProvider, container: string, remote: string)
    requires IsValidName(container) && IsValidName(remote)
    ensures p.Upload(UploadOptions(container, remote, Some(""), Some(""), Some(0)))
         == WriteTarget(ObjectPath(p.root, container, remote), "w+", None, DefaultFileMode)
    ensures p.Upload(UploadOptions(container, remote, None, None, None))
         == WriteTarget(ObjectPath(p.root, container, remote), "w+", None, DefaultFileMode)
    ensures DefaultFileMode == 438
  {
  }

  /** A start of 0 is falsy, so download then reads the whole file; a
      start without an end reads from that offset to the end. */
  lemma DownloadRange(p: SftpProvider, container: string, remote: string, end: Option<int>, start: int)
    requires IsValidName(container) && IsValidName(remote)
    requires start != 0
    ensures p.Download(DownloadOptions(container, remote, Some(0), end)).range == None
    ensures p.Download(DownloadOptions(container, remote, Some(start), None)).range
         == Some(ByteRange(start, None))
  {
  }

  /** The stream upload or download opens for valid names never has a `..`
      segment when the root has none. */
  lemma StreamsStayUnderRoot(p: SftpProvider, up: UploadOptions, down: DownloadOptions)
    requires !HasTraversal(NormalizePath(p.root))
    ensures p.Upload(up).WriteTarget? ==> !HasTraversal(p.Upload(up).path)
    ensures p.Download(down).ReadTarget? ==> !HasTraversal(p.Download(down).path)
  {
    if p.Upload(up).WriteTarget? {
      ObjectPathHasNoTraversal(p.root, up.container, up.remote);
    }
    if p.Download(down).ReadTarget? {
      ObjectPathHasNoTraversal(p.root, down.container, down.remote);
    }
  }

  /** getUrl of container "c" and path "p" under root "/r" is "/r/c/p". */
  lemma GetUrlExample(p: SftpProvider)
    requires p.root == "/r"
    ensures p.GetUrl(UrlOptions("c", "p")) == "/r/c/p"
  {
    NormalizeIdempotent("/r");
    NormalizeIdempotent("c");
    NormalizeIdempotent("p");
  }

  /** getUrl turns backslashes into forward slashes. */
  lemma GetUrlNormalizesBackslashes(p: SftpProvider)
    requires p.root == "/r"
    ensures p.GetUrl(UrlOptions("c\\d", "p")) == "/r/c/d/p"
  {
    NormalizeIdempotent("/r");
    NormalizeIdempotent("p");
    var d := NormalizePath("c\\d");
    assert d[1] == '/';
    assert d == "c/d";
    assert p.GetUrl(UrlOptions("c\\d", "p")) == "/r" + "/" + "c/d" + "/" + "p";
    BackslashUrlSpelled();
  }

  /** The joined URL of the backslash example, as one literal. */
  lemma BackslashUrlSpelled()
    ensures "/r" + "/" + "c/d" + "/" + "p" == "/r/c/d/p"
  {
  }

  /** Normalising the container `x\..\..` gives `x/../..`. */
  lemma NormalizeEscapingName()
    ensures NormalizePath("x\\..\\..") == "x/../.."
  {
    var c := NormalizePath("x\\..\\..");
    assert c[1] == '/' && c[4] == '/';
  }

  /** getUrl validates nothing. The container `x\..\..` is rejected by
      validateName, and on POSIX `path.join` keeps it as one segment;
      normalising afterwards turns it into `x/../..`, so the URL has `..`
      segments and resolves to `/p`, outside the root. */
  lemma GetUrlDoesNotValidate(p: SftpProvider)
    requires p.root == "/r"
    ensures p.GetUrl(UrlOptions("x\\..\\..", "p")) == "/r/x/../../p"
    ensures HasTraversal(p.GetUrl(UrlOptions("x\\..\\..", "p")))
  {
    EscapingUrl(p);
    assert TraversalAt("/r/x/../../p", 5);
  }

  /** The URL of getUrl for the container `x\..\..`, spelled out. */
  lemma EscapingUrl(p: SftpProvider)
    requires p.root == "/r"
    ensures p.GetUrl(UrlOptions("x\\..\\..", "p")) == "/r/x/../../p"
  {
    var c := "x\\..\\..";
    var u := p.GetUrl(UrlOptions(c, "p"));
    NormalizeIdempotent("/r");
    NormalizeIdempotent("p");
    NormalizeEscapingName();
    assert u == "/r" + "/" + "x/../.." + "/" + "p";
    EscapingUrlSpelled();
  }

  /** The joined URL of the escaping example, as one literal. */
  lemma EscapingUrlSpelled()
    ensures "/r" + "/" + "x/../.." + "/" + "p" == "/r/x/../../p"
  {
  }

  /** validateName rejects the container `x\..\..` of getUrl above, for its
      bounded `..`. */
  lemma EscapingNameRejected()
    ensures ValidateName("x\\..\\..") == Err(DotDotName("x\\..\\.."))
  {
    assert DotDotAt("x\\..\\..", 2);
  }
}
