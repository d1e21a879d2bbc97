/** The values the provider hands back (pkgcloud's Container and File, which
    copy every property of a details object) and the property record that
    `SFTPProvider.populateMetadata` fills in place. */
module Records {
  import opened Outcomes
  import opened RemoteFs

  /** A container: a directory directly under the root. */
  datatype Container = Container(name: string, size: int, atime: int, mtime: int, ctime: int)

  /** A file: a regular file inside a container. */
  datatype File = File(container: string, name: string, size: int, atime: int, mtime: int, ctime: int)

  /** The Container built from the directory entry `name` and its stat. */
  function ContainerFor(name: string, stat: Stats): (c: Container)
    ensures c.name == name
    ensures (c.size, c.atime, c.mtime, c.ctime) == (stat.attrs.size, stat.attrs.atime, stat.attrs.mtime, stat.attrs.ctime)
  {
    Container(name, stat.attrs.size, stat.attrs.atime, stat.attrs.mtime, stat.attrs.ctime)
  }

  /** The File built from container `container`, entry `name` and its stat. */
  function FileFor(container: string, name: string, stat: Stats): (f: File)
    ensures f.container == container && f.name == name
    ensures (f.size, f.atime, f.mtime, f.ctime) == (stat.attrs.size, stat.attrs.atime, stat.attrs.mtime, stat.attrs.ctime)
  {
    File(container, name, stat.attrs.size, stat.attrs.atime, stat.attrs.mtime, stat.attrs.ctime)
  }

  /** The details object (`{ name }` or `{ container, name }`) that is
      filled with metadata and then given to the Container or File. */
  class Props {
    var name: string
    var container: Option<string>
    var size: Option<int>
    var atime: Option<int>
    var mtime: Option<int>
    var ctime: Option<int>

    constructor (name: string, container: Option<string>)
      ensures this.name == name && this.container == container
      ensures size == None && atime == None && mtime == None && ctime == None
    {
      this.name, this.container := name, container;
      size, atime, mtime, ctime := None, None, None, None;
    }

    predicate HasMetadata()
      reads this
    {
      size.Some? && atime.Some? && mtime.Some? && ctime.Some?
    }

    /** `new Container(client, props)`: a snapshot of the properties. */
    function ToContainer(): Container
      reads this
      requires HasMetadata()
    {
      Container(name, size.value, atime.value, mtime.value, ctime.value)
    }

    /** `new File(client, props)`: a snapshot of the properties. */
    function ToFile(): File
      reads this
      requires HasMetadata() && container.Some?
    {
      File(container.value, name, size.value, atime.value, mtime.value, ctime.value)
    }
  }

  /** `SFTPProvider.populateMetadata`: sets the four stat fields of `props`
      from `stat`, leaves its other fields alone and returns the same
      record. */
  method PopulateMetadata(stat: Stats, props: Props) returns (r: Props)
    modifies props
    ensures r == props
    ensures props.size == Some(stat.attrs.size) && props.atime == Some(stat.attrs.atime)
    ensures props.mtime == Some(stat.attrs.mtime) && props.ctime == Some(stat.attrs.ctime)
    ensures props.name == old(props.name) && props.container == old(props.container)
    ensures props.ToContainer() == ContainerFor(props.name, stat)
    ensures props.container.Some? ==> props.ToFile() == FileFor(props.container.value, props.name, stat)
  {
    props.size := Some(stat.attrs.size);
    props.atime := Some(stat.attrs.atime);
    props.mtime := Some(stat.attrs.mtime);
    props.ctime := Some(stat.attrs.ctime);
    r := props;
  }
}
