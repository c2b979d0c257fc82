/**
 * The slice of `os` and `os.path` the client uses, over an explicit
 * description of the disk: which paths are files, which are directories,
 * what a YAML/JSON file parses to, what `os.listdir` returns for a
 * directory and which symbolic links exist. Paths are plain texts.
 */
module Os {
  import opened Common

  datatype FileSystem = FileSystem(
    files: set<string>,
    dirs: set<string>,
    docs: map<string, Json>,
    listing: map<string, seq<string>>,
    links: map<string, string>)

  /** `os.path.join(a, b)` for a relative `b`. */
  function PathJoin(a: string, b: string): string
  {
    a + "/" + b
  }

  /** `k` applications of `os.path.join("..", p)`. */
  function Up(k: nat, p: string): (r: string)
    ensures |r| == |p| + 3 * k
  {
    if k == 0 then p else "../" + Up(k - 1, p)
  }

  /** `os.path.join('..', '..', p)` climbs two levels. */
  lemma JoinUp2(p: string)
    ensures PathJoin(PathJoin("..", ".."), p) == Up(2, p)
  {
    assert PathJoin("..", "..") + "/" == "../" + "../";
    assert Up(1, p) == "../" + p;
    assert Up(2, p) == "../" + ("../" + p);
  }

  /** `os.path.join('..', '..', '..', p)` climbs three levels. */
  lemma JoinUp3(p: string)
    ensures PathJoin(PathJoin(PathJoin("..", ".."), ".."), p) == Up(3, p)
  {
    assert PathJoin(PathJoin("..", ".."), "..") + "/" == "../" + "../" + "../";
    JoinUp2(p);
    assert Up(3, p) == "../" + ("../" + "../" + p);
  }

  /** The position of the last `/` of `p`, if any. */
  function LastSlash(p: string): (r: Option<nat>)
    ensures r.Some? ==> r.value < |p| && p[r.value] == '/'
    ensures r.Some? ==> forall j :: r.value < j < |p| ==> p[j] != '/'
    ensures r.None? ==> '/' !in p
  {
    if |p| == 0 then None
    else if p[|p| - 1] == '/' then Some(|p| - 1)
    else LastSlash(p[..|p| - 1])
  }

  /** `os.path.split(p)[0]`: everything before the last `/`. */
  function Dirname(p: string): string
  {
    match LastSlash(p)
    case None => ""
    case Some(i) => p[..i]
  }

  /** `os.path.split(p)[1]`: everything after the last `/`. */
  function Basename(p: string): string
  {
    match LastSlash(p)
    case None => p
    case Some(i) => p[i + 1..]
  }

  /** Splitting a joined path gives back the directory and the name. */
  lemma DirnameJoin(dir: string, name: string)
    requires '/' !in name
    ensures Dirname(PathJoin(dir, name)) == dir
    ensures Basename(PathJoin(dir, name)) == name
  {
    var p := PathJoin(dir, name);
    assert p[|dir|] == '/';
    assert forall j :: |dir| < j < |p| ==> p[j] == name[j - |dir| - 1];
  }

  /** `pathname.replace(os.sep, '_')`, with `/` as the separator. */
  function NormalizePathname(p: string): string
  {
    Replace(p, "/", "_")
  }

  /**
   * The normalised name has the same length, holds no separator, differs
   * from the input only where the input had one, and normalising again
   * changes nothing.
   */
  lemma NormalizePathnameSpec(p: string)
    ensures |NormalizePathname(p)| == |p|
    ensures '/' !in NormalizePathname(p)
    ensures forall i :: 0 <= i < |p| ==> NormalizePathname(p)[i] == (if p[i] == '/' then '_' else p[i])
    ensures NormalizePathname(NormalizePathname(p)) == NormalizePathname(p)
  {
    ReplaceChar(p, '/', '_');
    var q := NormalizePathname(p);
    ReplaceChar(q, '/', '_');
    assert SubstChar(q, '/', '_') == q;
  }

  /** `os.path.isfile` for a path that is not a symbolic link: links are never followed. */
  predicate IsFile(fs: FileSystem, p: string) { p in fs.files }

  /** `os.path.isdir` for a path that is not a symbolic link: links are never followed. */
  predicate IsDir(fs: FileSystem, p: string) { p in fs.dirs }

  /**
   * Something stands at `p`: a file, a directory or a symbolic link. This is
   * `os.path.exists` without following links, so a broken link exists here.
   */
  predicate Exists(fs: FileSystem, p: string)
  {
    p in fs.files || p in fs.dirs || p in fs.links
  }

  /** `yaml.load(open(p))` / `json.load(open(p))`. */
  function Load(fs: FileSystem, p: string): Result<Json>
  {
    if p in fs.files && p in fs.docs then Ok(fs.docs[p]) else Err(Failure("cannot open or parse " + p))
  }

  /** `os.listdir(p)`, in the order the operating system reports. */
  function ListDir(fs: FileSystem, p: string): Result<seq<string>>
  {
    if p in fs.dirs && p in fs.listing then Ok(fs.listing[p]) else Err(Failure("not a directory: " + p))
  }

  /** The disk after `os.makedirs(p, exist_ok=True)` for a `p` whose parent exists: a refusal for a non-directory at `p`. */
  function Ensured(fs: FileSystem, p: string): (r: Result<FileSystem>)
    ensures r.Ok? <==> IsDir(fs, p) || !Exists(fs, p)
    ensures r.Ok? ==> IsDir(r.value, p) && r.value.files == fs.files && r.value.links == fs.links && r.value.docs == fs.docs
    ensures r.Ok? && IsDir(fs, p) ==> r.value == fs
    ensures r.Ok? ==> forall q :: q != p ==> (IsDir(r.value, q) <==> IsDir(fs, q)) && ListDir(r.value, q) == ListDir(fs, q)
  {
    if IsDir(fs, p) then Ok(fs)
    else if Exists(fs, p) then Err(Failure("FileExistsError: " + p))
    else Ok(fs.(dirs := fs.dirs + {p}, listing := fs.listing[p := []]))
  }

  /** The disk after `os.symlink(target, p)`: only the links change, and an existing `p` is refused. */
  function Linked(fs: FileSystem, target: string, p: string): (r: Result<FileSystem>)
    ensures r.Ok? <==> !Exists(fs, p)
    ensures r.Ok? ==> r.value.links == fs.links[p := target]
    ensures r.Ok? ==> r.value.files == fs.files && r.value.dirs == fs.dirs && r.value.docs == fs.docs && r.value.listing == fs.listing
  {
    if Exists(fs, p) then Err(Failure("FileExistsError: " + p))
    else Ok(fs.(links := fs.links[p := target]))
  }

  /** The working area the client changes: directories, cache files and links. */
  class Disk {
    var fs: FileSystem

    constructor (fs: FileSystem)
      ensures this.fs == fs
    {
      this.fs := fs;
    }

    /** `os.mkdir(p)`: refuses an existing path. */
    method MakeDir(p: string) returns (ok: bool)
      modifies this
      ensures ok <==> !Exists(old(fs), p)
      ensures ok ==> fs == old(fs).(dirs := old(fs).dirs + {p}, listing := old(fs).listing[p := []])
      ensures !ok ==> fs == old(fs)
    {
      if Exists(fs, p) {
        return false;
      }
      fs := fs.(dirs := fs.dirs + {p}, listing := fs.listing[p := []]);
      return true;
    }

    /**
     * `_mkdir` of the linalg17 script and `mkdirp`: nothing to do for a
     * directory, a refusal for any other existing path, else `os.mkdir`.
     */
    method EnsureDir(p: string) returns (ok: bool)
      modifies this
      ensures ok <==> IsDir(old(fs), p) || !Exists(old(fs), p)
      ensures ok ==> IsDir(fs, p)
      ensures IsDir(old(fs), p) || !ok ==> fs == old(fs)
      ensures ok && !IsDir(old(fs), p) ==> fs == old(fs).(dirs := old(fs).dirs + {p}, listing := old(fs).listing[p := []])
      ensures ok <==> Ensured(old(fs), p).Ok?
      ensures ok ==> fs == Ensured(old(fs), p).value
    {
      if IsDir(fs, p) {
        return true;
      }
      ok := MakeDir(p);
    }

    /** `mkdir` of the command line: nothing to do for any existing path, else `os.mkdir`. */
    method MakeDirIfAbsent(p: string)
      modifies this
      ensures Exists(old(fs), p) ==> fs == old(fs)
      ensures !Exists(old(fs), p) ==> fs == old(fs).(dirs := old(fs).dirs + {p}, listing := old(fs).listing[p := []])
      ensures Exists(fs, p)
    {
      if !Exists(fs, p) {
        var _ := MakeDir(p);
      }
    }

    /** Writing a YAML/JSON document to `p` (`open(p, 'w')` and a dump). */
    method WriteDoc(p: string, doc: Json)
      modifies this
      ensures fs == old(fs).(files := old(fs).files + {p}, docs := old(fs).docs[p := doc])
    {
      fs := fs.(files := fs.files + {p}, docs := fs.docs[p := doc]);
    }

    /** `os.symlink(target, p)`: refuses an existing path. */
    method Symlink(target: string, p: string) returns (ok: bool)
      modifies this
      ensures ok <==> !Exists(old(fs), p)
      ensures ok ==> fs == old(fs).(links := old(fs).links[p := target])
      ensures !ok ==> fs == old(fs)
      ensures ok <==> Linked(old(fs), target, p).Ok?
      ensures ok ==> fs == Linked(old(fs), target, p).value
    {
      if Exists(fs, p) {
        return false;
      }
      fs := fs.(links := fs.links[p := target]);
      return true;
    }
  }
}
