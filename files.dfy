/** The part of Node's `fs` module that the rotation routine uses, over an
    abstract file system: file contents by path, the descriptors currently
    open, and failures of open, truncate and close supplied as inputs. */
module Files {
  import opened Common

  newtype byte = x: int | 0 <= x < 256

  datatype Error = Error(code: string)

  const ENOENT: Error := Error("ENOENT")

  class FileSystem {
    var files: map<string, seq<byte>>
    /** One entry per open descriptor, recorded by the path it was opened on. */
    var handles: multiset<string>

    constructor (files: map<string, seq<byte>>)
      ensures this.files == files && handles == multiset{}
    {
      this.files := files;
      handles := multiset{};
    }

    /** openSync(path, 'r'): fails on a missing file, or with the given fault. */
    method OpenRead(path: string, fault: Option<Error>) returns (err: Option<Error>)
      modifies this`handles
      ensures err == if path !in files then Some(ENOENT) else fault
      ensures handles == if err.None? then old(handles) + multiset{path} else old(handles)
    {
      err := if path !in files then Some(ENOENT) else fault;
      if err.None? {
        handles := handles + multiset{path};
      }
    }

    /** openSync(path, 'w'): creates the file or empties it, unless it fails. */
    method OpenWrite(path: string, fault: Option<Error>) returns (err: Option<Error>)
      modifies this`files, this`handles
      ensures err == fault
      ensures err.None? ==> files == old(files)[path := []] && handles == old(handles) + multiset{path}
      ensures err.Some? ==> files == old(files) && handles == old(handles)
    {
      err := fault;
      if err.None? {
        files := files[path := []];
        handles := handles + multiset{path};
      }
    }

    /** closeSync: the descriptor is released whatever the outcome. */
    method Close(path: string, fault: Option<Error>) returns (err: Option<Error>)
      modifies this`handles
      ensures err == fault && handles == old(handles) - multiset{path}
    {
      err := fault;
      handles := handles - multiset{path};
    }

    /** truncateSync(path): empties the file unless it fails. */
    method Truncate(path: string, fault: Option<Error>) returns (err: Option<Error>)
      modifies this`files
      ensures err == if fault.Some? then fault else if path !in files then Some(ENOENT) else None
      ensures files == if err.None? then old(files)[path := []] else old(files)
    {
      err := if fault.Some? then fault else if path !in files then Some(ENOENT) else None;
      if err.None? {
        files := files[path := []];
      }
    }

    /** readSync(fd, buf, 0, length, pos): copies up to `length` bytes of the
        file from offset `pos` into the front of `buf`; 0 at end of file. */
    method ReadAt(path: string, buf: array<byte>, length: nat, pos: nat) returns (n: nat)
      requires path in files && length <= buf.Length
      modifies buf
      ensures n == Min(length, if pos <= |files[path]| then |files[path]| - pos else 0)
      ensures n > 0 ==> pos + n <= |files[path]| && buf[..n] == files[path][pos..pos + n]
    {
      var content := files[path];
      n := Min(length, if pos <= |content| then |content| - pos else 0);
      forall i | 0 <= i < n {
        buf[i] := content[pos + i];
      }
    }

    /** writeSync(fd, buf, 0, n) on a descriptor opened with 'w' and written
        only through this call: the bytes go at the end of what it wrote. */
    method WriteNext(path: string, buf: array<byte>, n: nat)
      requires path in files && n <= buf.Length
      modifies this`files
      ensures files == old(files)[path := old(files[path]) + buf[..n]]
    {
      files := files[path := files[path] + buf[..n]];
    }
  }
}
