/** The part of the file system the backend touches: files by path, written and deleted whole. */
module Files {

  newtype byte = b: int | 0 <= b < 256

  /** Writing a file that did not exist and deleting it again leaves the files as they were. */
  lemma WriteThenUnlink(files: map<string, seq<byte>>, path: string, contents: seq<byte>)
    requires path !in files
    ensures files[path := contents] - {path} == files
  {
    var after := files[path := contents] - {path};
    assert after.Keys == files.Keys;
  }

  class FileSystem {
    var files: map<string, seq<byte>>

    constructor (files: map<string, seq<byte>>)
      ensures this.files == files
    {
      this.files := files;
    }

    /** `Path(path).exists()`. */
    predicate Exists(path: string)
      reads this
    {
      path in files
    }

    /** Writing a whole file: it is created or replaced, and no other file changes. */
    method Write(path: string, contents: seq<byte>)
      modifies this
      ensures files == old(files)[path := contents]
    {
      files := files[path := contents];
    }

    /** `Path(path).unlink(missing_ok=True)`: a missing file is not an error. */
    method Unlink(path: string)
      modifies this
      ensures files == old(files) - {path}
    {
      files := files - {path};
    }
  }
}
