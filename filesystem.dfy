/** The part of Node's `fs` module the file writer touches: `existsSync`,
    `mkdirSync` with `recursive` and `writeFileSync`. Files and directories
    are kept under the paths they name (`Paths.Canon`). Paths where the
    operating system refuses to create or write anything are a fixed set,
    chosen by the caller. */
module FileSystem {
  import opened Paths

  /** One `writeFileSync(path, data)` that succeeded. */
  datatype Write = Write(path: string, data: string)

  /** The file contents after the writes, in order, starting from `files`. */
  function ApplyWrites(files: map<string, string>, writes: seq<Write>): map<string, string>
  {
    if writes == [] then files
    else
      var w := writes[|writes| - 1];
      ApplyWrites(files, writes[..|writes| - 1])[w.path := w.data]
  }

  /** The paths written. */
  function Written(writes: seq<Write>): set<string>
  {
    set w | w in writes :: w.path
  }

  /** The `k`-th write is the last one to `p`. */
  predicate IsLastWrite(writes: seq<Write>, k: nat, p: string)
  {
    k < |writes| && writes[k].path == p && forall m :: k < m < |writes| ==> writes[m].path != p
  }

  /** A file that was written holds what the last write to it put there; any
      other file keeps its contents. */
  lemma {:induction false} LastWriteWins(files: map<string, string>, writes: seq<Write>, p: string)
    ensures p in ApplyWrites(files, writes) <==> p in files || p in Written(writes)
    ensures forall k: nat :: IsLastWrite(writes, k, p) ==> ApplyWrites(files, writes)[p] == writes[k].data
    ensures p !in Written(writes) && p in files ==> ApplyWrites(files, writes)[p] == files[p]
  {
    if writes != [] {
      var init := writes[..|writes| - 1];
      var w := writes[|writes| - 1];
      LastWriteWins(files, init, p);
      assert writes == init + [w];
      assert Written(writes) == Written(init) + {w.path};
      forall k: nat | IsLastWrite(writes, k, p)
        ensures ApplyWrites(files, writes)[p] == writes[k].data
      {
        if k < |writes| - 1 {
          assert writes[|writes| - 1].path != p;
          assert init[k] == writes[k];
          forall m | k < m < |init|
            ensures init[m].path != p
          {
            assert init[m] == writes[m];
          }
        }
      }
    }
  }

  /** Writing the same files again changes nothing. */
  lemma {:induction false} RewriteIdempotent(files: map<string, string>, writes: seq<Write>)
    ensures ApplyWrites(ApplyWrites(files, writes), writes) == ApplyWrites(files, writes)
  {
    var once := ApplyWrites(files, writes);
    var twice := ApplyWrites(once, writes);
    forall p
      ensures p in twice <==> p in once
      ensures p in twice ==> twice[p] == once[p]
    {
      LastWriteWins(files, writes, p);
      LastWriteWins(once, writes, p);
      if p in Written(writes) {
        var k := LastWriteTo(writes, p);
      }
    }
  }

  /** The index of the last write to `p`. */
  lemma LastWriteTo(writes: seq<Write>, p: string) returns (k: nat)
    requires p in Written(writes)
    ensures IsLastWrite(writes, k, p)
  {
    var w :| w in writes && w.path == p;
    var i :| 0 <= i < |writes| && writes[i] == w;
    k := i;
    while k + 1 < |writes| && exists m :: k < m < |writes| && writes[m].path == p
      invariant k < |writes| && writes[k].path == p
      decreases |writes| - k
    {
      var m :| k < m < |writes| && writes[m].path == p;
      k := m;
    }
  }

  /** `mkdirSync(q, { recursive: true })` on a path that does not exist
      succeeds unless the path is refused or one of the directories it
      would pass through is a file. */
  predicate CanMakeDirs(q: string, files: map<string, string>, denied: set<string>)
  {
    q !in denied && forall a :: a in Ancestors(q) ==> a !in files
  }

  /** `writeFileSync(q, ...)` succeeds when the path is not refused, is not
      a directory, and its directory exists. */
  predicate Writable(q: string, dirs: set<string>, denied: set<string>)
  {
    q !in denied && q !in dirs && DirName(q) in dirs
  }

  /** `writeFileSync(p, ...)` on the path as written: a path that ends in a
      slash fails (EISDIR over a directory, ENOTDIR over a file, ENOENT
      otherwise); any other path is read through `Canon`. */
  predicate FileWritable(p: string, dirs: set<string>, denied: set<string>)
  {
    !EndsInSlash(p) && Writable(Canon(p), dirs, denied)
  }

  /** A disk: files with their contents, directories, the log of successful
      writes, and the paths where creating or writing fails. */
  class Disk {
    var files: map<string, string>
    var dirs: set<string>
    var writes: seq<Write>
    const denied: set<string>
    ghost const initial: map<string, string>

    /** The files are what the logged writes made of the initial files. */
    ghost predicate Valid()
      reads this
    {
      files == ApplyWrites(initial, writes)
    }

    constructor (files0: map<string, string>, dirs0: set<string>, denied0: set<string>)
      ensures Valid()
      ensures files == files0 && dirs == dirs0 && writes == [] && denied == denied0
    {
      files := files0;
      dirs := dirs0;
      writes := [];
      denied := denied0;
      initial := files0;
    }

    /** `fs.existsSync(p)`. */
    predicate Exists(p: string)
      reads this
    {
      Canon(p) in files || Canon(p) in dirs
    }

    /** `fs.mkdirSync(p, { recursive: true })`; `ok` is false where it throws.
        It makes every missing directory on the way. */
    method MakeDirs(p: string) returns (ok: bool)
      modifies this
      ensures ok <==> CanMakeDirs(Canon(p), files, denied)
      ensures dirs == if ok then old(dirs) + Ancestors(Canon(p)) else old(dirs)
      ensures files == old(files) && writes == old(writes)
    {
      var q := Canon(p);
      ok := q !in denied && forall a | a in Ancestors(q) :: a !in files;
      if ok {
        dirs := dirs + Ancestors(q);
      }
    }

    /** `fs.writeFileSync(p, data)`; `ok` is false where it throws: on a
        path ending in a slash, on a refused path, over a directory, or
        where the directory is missing. */
    method WriteFile(p: string, data: string) returns (ok: bool)
      requires Valid()
      modifies this
      ensures Valid()
      ensures ok <==> FileWritable(p, dirs, denied)
      ensures writes == old(writes) + (if ok then [Write(Canon(p), data)] else [])
      ensures files == if ok then old(files)[Canon(p) := data] else old(files)
      ensures dirs == old(dirs)
    {
      var q := Canon(p);
      ok := !(|p| > 0 && p[|p| - 1] == '/') && q !in denied && q !in dirs && DirName(q) in dirs;
      if ok {
        writes := writes + [Write(q, data)];
        files := files[q := data];
        assert writes[..|writes| - 1] == old(writes);
      }
    }
  }
}
