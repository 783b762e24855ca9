/** The part of the operating system's filesystem the streaming session touches:
    files addressed by directory and name, and the set of existing directories. */
module Files {
  import opened Wrappers

  newtype byte = x: int | 0 <= x < 256

  type Bytes = seq<byte>

  /** `os.path.join(dir, name)`, kept as a pair so that directory membership is exact. */
  datatype Path = Path(dir: string, name: string)

  datatype Fs = Fs(files: map<Path, Bytes>, dirs: set<string>)

  /** A directory with no file inside it. */
  predicate DirEmpty(fs: Fs, dir: string)
  {
    forall p :: p in fs.files ==> p.dir != dir
  }

  /** `str(e)` of the `FileNotFoundError` raised when opening a missing path:
      CPython's POSIX text, with the path as `os.path.join` renders it. */
  function NotFound(p: Path): string
  {
    "[Errno 2] No such file or directory: '" + p.dir + "/" + p.name + "'"
  }

  /** `os.makedirs(dir, exist_ok=True)`. */
  function MakeDirs(fs: Fs, dir: string): (r: Fs)
    ensures r.files == fs.files && r.dirs == fs.dirs + {dir}
  {
    fs.(dirs := fs.dirs + {dir})
  }

  /** `open(path, 'wb').write(data)`: creates or truncates the file, and raises
      when its directory does not exist. */
  function WriteFile(fs: Fs, path: Path, data: Bytes): (r: Result<Fs>)
    ensures r.Success? <==> path.dir in fs.dirs
    ensures r.Success? ==> r.value.files == fs.files[path := data] && r.value.dirs == fs.dirs
    ensures r.Failure? ==> r.error == NotFound(path)
  {
    if path.dir in fs.dirs then Success(fs.(files := fs.files[path := data]))
    else Failure(NotFound(path))
  }

  /** `if os.path.exists(path): os.remove(path)`. */
  function RemoveIfExists(fs: Fs, path: Path): (r: Fs)
    ensures path !in r.files && r.dirs == fs.dirs
    ensures forall p :: p != path ==> (p in r.files <==> p in fs.files)
    ensures forall p :: p in r.files ==> r.files[p] == fs.files[p]
  {
    if path in fs.files then fs.(files := fs.files - {path}) else fs
  }

  /** `os.rmdir(dir)`: raises when the directory is missing or not empty. */
  function RemoveDir(fs: Fs, dir: string): (r: Result<Fs>)
    ensures r.Success? <==> dir in fs.dirs && DirEmpty(fs, dir)
    ensures r.Success? ==> r.value.files == fs.files && r.value.dirs == fs.dirs - {dir}
  {
    if dir in fs.dirs && DirEmpty(fs, dir) then Success(fs.(dirs := fs.dirs - {dir}))
    else Failure("Directory missing or not empty")
  }
}
