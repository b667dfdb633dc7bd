/**
 * The local disk as the image fields see it: a set of existing paths (files
 * and directories alike) and the four primitives they call on it.
 */
module Disk {
  import opened Wrappers
  import opened Paths

  /** `p` names an entry directly inside `dir`. */
  predicate DirectChild(dir: string, p: string)
  {
    |p| > |dir| + 1 && p[..|dir| + 1] == dir + "/" && '/' !in p[|dir| + 1..]
  }

  /** `fs.readdirSync(dir).length`: the number of entries directly inside `dir`. */
  function EntryCount(files: set<string>, dir: string): nat
  {
    |set p | p in files && DirectChild(dir, p)|
  }

  class FileSystem {
    var files: set<string>

    constructor (files: set<string>)
      ensures this.files == files
    {
      this.files := files;
    }

    /** `fs.existsSync(p)`. */
    predicate ExistsSync(p: string)
      reads this
    {
      p in files
    }

    /** `fs.readdirSync(dir).length`. */
    function ReadDirCount(dir: string): nat
      reads this
    {
      EntryCount(files, dir)
    }

    /**
     * `fs.move(src, dst, cb)`: `status` is what the filesystem reports; on
     * success `src` is gone and `dst` exists, on failure nothing changed.
     */
    method Move(src: string, dst: string, status: Outcome)
      modifies this
      ensures files == if status.Pass? then old(files) - {src} + {dst} else old(files)
    {
      if status.Pass? {
        files := files - {src} + {dst};
      }
    }

    /** `fs.unlinkSync(p)` on a path that exists. */
    method Unlink(p: string)
      requires p in files
      modifies this
      ensures files == old(files) - {p}
    {
      files := files - {p};
    }

    /** A resize writing its output to `dst`. */
    method WriteDerivative(dst: string)
      modifies this
      ensures files == old(files) + {dst}
    {
      files := files + {dst};
    }
  }
}
