/**
 * The filesystem as the editor uses it: whole-file reads and writes. A read
 * fails where no file exists; a write fails on the empty path (which names no
 * file) and on the paths listed as unwritable (a protected location, a
 * missing directory).
 */
module Files {
  import opened Wrappers

  datatype FileSystem = FileSystem(files: map<string, string>, unwritable: set<string>)
  {
    /** `fs::read_to_string`: the file's text, or None when the read fails. */
    function Read(path: string): Option<string>
    {
      if path != "" && path in files then Some(files[path]) else None
    }

    predicate Writable(path: string)
    {
      path != "" && path !in unwritable
    }

    /** `fs::write`: creates or overwrites the file; None when the write fails. */
    function Write(path: string, text: string): (r: Option<FileSystem>)
      ensures r.Some? <==> Writable(path)
      ensures r.Some? ==> r.value.Read(path) == Some(text)
      ensures r.Some? ==> forall p :: p != path ==> r.value.Read(p) == Read(p)
      ensures r.Some? ==> r.value.unwritable == unwritable
    {
      if Writable(path) then Some(FileSystem(files[path := text], unwritable)) else None
    }
  }
}
