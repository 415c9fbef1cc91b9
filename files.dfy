/** The part of the file system the service touches: paths with their sizes in bytes. */
module Files {

  class FileSystem {
    var files: map<string, nat>

    constructor (initial: map<string, nat>)
      ensures files == initial
    {
      files := initial;
    }

    /** An external engine writes (or overwrites) a file. */
    method Write(path: string, size: nat)
      modifies this
      ensures files == old(files)[path := size]
    {
      files := files[path := size];
    }

    /** `os.remove` guarded by `os.path.exists`: removing a missing path changes nothing. */
    method Remove(path: string)
      modifies this
      ensures files == old(files) - {path}
    {
      if path in files {
        files := files - {path};
      }
    }

    /**
     * `cleanup_temp_files`: removes every listed path that exists; failures to remove
     * are only logged, so a missing path is skipped.
     */
    method CleanupTempFiles(paths: seq<string>)
      modifies this
      ensures files == old(files) - (set p | p in paths)
      ensures forall p :: p in paths ==> p !in files
    {
      var i := 0;
      while i < |paths|
        invariant 0 <= i <= |paths|
        invariant files == old(files) - (set p | p in paths[..i])
      {
        Remove(paths[i]);
        assert paths[..i + 1] == paths[..i] + [paths[i]];
        i := i + 1;
      }
      assert paths[..|paths|] == paths;
    }
  }
}
