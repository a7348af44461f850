/**
 * The file system as the tool sees it: the set of paths that exist, and
 * the paths that `fs.renameSync` refuses to move a file from or to (no
 * permission, missing parent directory, read-only volume), where Node
 * throws instead of renaming.
 */
module Files {

  /** `fs.renameSync(src, dst)` does not throw on a file system with these files and locked paths. */
  predicate RenameSucceeds(files: set<string>, locked: set<string>, src: string, dst: string) {
    src in files && src !in locked && dst !in locked
  }

  class FileSystem {
    var files: set<string>
    const locked: set<string>

    constructor (files: set<string>, locked: set<string>)
      ensures this.files == files && this.locked == locked
    {
      this.files := files;
      this.locked := locked;
    }

    /** `fs.existsSync(p)`. */
    method Exists(p: string) returns (b: bool)
      ensures b <==> p in files
    {
      b := p in files;
    }

    /**
     * `fs.renameSync(src, dst)`; `ok` is false where Node throws, and then
     * nothing changes. An existing `dst` is replaced, as POSIX `rename` does.
     */
    method Rename(src: string, dst: string) returns (ok: bool)
      modifies this
      ensures ok == RenameSucceeds(old(files), locked, src, dst)
      ensures files == if ok then old(files) - {src} + {dst} else old(files)
    {
      ok := RenameSucceeds(files, locked, src, dst);
      if ok {
        files := files - {src} + {dst};
      }
    }
  }
}
