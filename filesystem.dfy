/** The server's staging directory as a mutable map from paths to file contents, with the
    `fs.promises` calls the endpoint and the converters make. */
module FileSystem {
  import opened Outcomes
  import opened Paths

  type Bytes = seq<bv8>

  /** The error every call reports for a path that does not exist. */
  const NoSuchFile := Error("ENOENT: no such file or directory")

  /** The contents of `p` in `files`, if it exists. */
  function FileAt(files: map<Path, Bytes>, p: Path): Option<Bytes>
  {
    if p in files then Some(files[p]) else None
  }

  class Disk {
    var files: map<Path, Bytes>

    constructor (initial: map<Path, Bytes>)
      ensures files == initial
    {
      files := initial;
    }

    /** `fs.readFile(p)` */
    method ReadFile(p: Path) returns (r: Result<Bytes>)
      ensures p in files ==> r == Ok(files[p])
      ensures p !in files ==> r == Err(NoSuchFile)
    {
      if p in files {
        r := Ok(files[p]);
      } else {
        r := Err(NoSuchFile);
      }
    }

    /** `fs.writeFile(p, data)`: creates or replaces `p`. */
    method WriteFile(p: Path, data: Bytes)
      modifies this
      ensures files == old(files)[p := data]
    {
      files := files[p := data];
    }

    /** `fs.unlink(p)` */
    method Unlink(p: Path) returns (r: Result<()>)
      modifies this
      ensures r.Ok? <==> p in old(files)
      ensures r.Err? ==> r.failure == NoSuchFile
      ensures files == old(files) - {p}
    {
      if p in files {
        files := files - {p};
        r := Ok(());
      } else {
        r := Err(NoSuchFile);
      }
    }

    /** `fs.rename(source, target)`: moves the contents, replacing whatever `target` held. */
    method Rename(source: Path, target: Path) returns (r: Result<()>)
      modifies this
      ensures r.Ok? <==> source in old(files)
      ensures r.Err? ==> r.failure == NoSuchFile && files == old(files)
      ensures r.Ok? ==> files == (old(files) - {source})[target := old(files)[source]]
    {
      if source in files {
        files := (files - {source})[target := files[source]];
        r := Ok(());
      } else {
        r := Err(NoSuchFile);
      }
    }
  }
}
