/** The local file area where uploaded content is written, reduced to the
    directories that exist and the files written, keyed by path. */
module Disk {
  import opened Values

  class Volume {
    var dirs: set<string>
    var blobs: map<string, Bytes>

    constructor ()
      ensures dirs == {} && blobs == map[]
    {
      dirs, blobs := {}, map[];
    }

    /** `existsSync(path)` for a directory path. */
    method Exists(path: string) returns (b: bool)
      ensures b <==> path in dirs
    {
      b := path in dirs;
    }

    /** `mkdirSync(path, { recursive: true })`. */
    method MakeDirectory(path: string)
      modifies this
      ensures dirs == old(dirs) + {path} && blobs == old(blobs)
    {
      dirs := dirs + {path};
    }

    /** `writeFileSync(path, content)`: the file at `path` holds `content` afterwards. */
    method WriteFile(path: string, content: Bytes)
      modifies this
      ensures blobs == old(blobs)[path := content] && dirs == old(dirs)
    {
      blobs := blobs[path := content];
    }
  }
}
