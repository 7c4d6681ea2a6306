/**
 * The file system as the index builder sees it: each gzip file it writes is
 * recorded under its name with the bytes it decompresses to.
 */
module Files {

  newtype byte = x: int | 0 <= x < 256

  class FileSystem {
    /** The decompressed content of every file written so far, by name. */
    var files: map<string, seq<byte>>
    /** The names whose write raises an I/O error (a missing or read-only directory). */
    const unwritable: set<string>

    constructor (files: map<string, seq<byte>>, unwritable: set<string>)
      ensures this.files == files && this.unwritable == unwritable
    {
      this.files := files;
      this.unwritable := unwritable;
    }

    /**
     * `GzipFile(name, "wb")`, `write(data)`, `close()`: on success `name`
     * now holds `data` and no other file changes; on failure nothing changes.
     */
    method WriteGzip(name: string, data: seq<byte>) returns (ok: bool)
      modifies this
      ensures ok <==> name !in unwritable
      ensures files == if ok then old(files)[name := data] else old(files)
    {
      ok := name !in unwritable;
      if ok {
        files := files[name := data];
      }
    }
  }
}
