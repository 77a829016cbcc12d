/**
 * The local-filesystem backend of lib/fs/storage.go. A Storage is a volume:
 * a directory prefix ending in "/" that every storage path is placed under.
 * The host file system is a Disk holding regular files by path; directories,
 * the process umask and real I/O are not modelled.
 */
module FsStorage {
  import opened Wrappers
  import opened Options
  import opened PathStrings

  /** ErrEmptyPath, and the os error for a missing file (the *PathError of os.Open, os.Remove, ioutil.ReadFile). */
  datatype FsError = ErrEmptyPath | NotExist(name: string)

  type Bytes = seq<bv8>

  /** A regular file: its bytes and its permission bits. */
  datatype File = File(data: Bytes, mode: nat)

  /** The mode Copy writes with unless an option overrides it (0644 in octal). */
  const DefaultCopyMode: int := 420

  /** The mode Put and Create write with (0766 in octal). */
  const PutMode: int := 502

  /** fs.FileMode(m): Go's conversion of an int to the 32-bit unsigned FileMode. */
  function FileMode(m: int): nat
  {
    m % 0x1_0000_0000
  }

  /** The host file system as the backend sees it. */
  class Disk {
    var files: map<string, File>

    constructor (initial: map<string, File>)
      ensures files == initial
    {
      files := initial;
    }
  }

  /**
   * The files after ioutil.WriteFile(name, data, perm) or an O_CREATE|O_TRUNC
   * open: a new file gets `perm`, an existing one keeps its mode.
   */
  function Written(files: map<string, File>, name: string, data: Bytes, perm: int): (r: map<string, File>)
    ensures r.Keys == files.Keys + {name} && r[name].data == data
    ensures r[name].mode == if name in files then files[name].mode else FileMode(perm)
    ensures forall other :: other in files && other != name ==> r[other] == files[other]
  {
    files[name := File(data, if name in files then files[name].mode else FileMode(perm))]
  }

  /** The two results of fullPath: the location, and ErrEmptyPath for an empty path. */
  datatype Located = Located(loc: string, err: Option<FsError>)

  /** An entry godirwalk reports: its path and whether it is a directory. */
  datatype Dirent = Dirent(name: string, isDir: bool)

  /**
   * NewStorage: the volume with a "/" appended unless it already ends in one.
   * Go slices vol[len(vol)-1:], which panics for an empty volume.
   */
  function NewStorage(vol: string): (s: Storage)
    requires vol != []
    ensures s.vol != [] && s.vol[|s.vol| - 1] == '/'
    ensures HasPrefix(s.vol, vol) && |s.vol| <= |vol| + 1
    ensures vol[|vol| - 1] == '/' ==> s.vol == vol
  {
    if vol[|vol| - 1..] != "/" then Storage(vol + "/") else Storage(vol)
  }

  /** True when every file entry is at least `offset` characters long, as godirwalk's paths under the walked root are. */
  predicate WalkedPathsFit(entries: seq<Dirent>, offset: nat)
  {
    forall i :: 0 <= i < |entries| && !entries[i].isDir ==> offset <= |entries[i].name|
  }

  /** The callback arguments of a walk: every entry that is not a directory, with its first `offset` characters cut. */
  function Visits(entries: seq<Dirent>, offset: nat): (r: seq<string>)
    requires WalkedPathsFit(entries, offset)
    decreases |entries|
  {
    if entries == [] then []
    else
      var e := entries[|entries| - 1];
      Visits(entries[..|entries| - 1], offset) + (if e.isDir then [] else [e.name[offset..]])
  }

  /** The walk's callback loop: visit the entries in walk order, skipping directories. */
  method VisitAll(entries: seq<Dirent>, offset: nat) returns (visited: seq<string>)
    requires WalkedPathsFit(entries, offset)
    ensures visited == Visits(entries, offset)
  {
    visited := [];
    for i := 0 to |entries|
      invariant WalkedPathsFit(entries[..i], offset)
      invariant visited == Visits(entries[..i], offset)
    {
      var e := entries[i];
      assert entries[..i + 1][..i] == entries[..i] && entries[..i + 1][i] == e;
      if !e.isDir {
        visited := visited + [e.name[offset..]];
      }
    }
    assert entries[..|entries|] == entries;
  }

  datatype Storage = Storage(vol: string)
  {
    /** fullPath: the volume followed by the path with one leading "/" trimmed; an empty path also yields ErrEmptyPath. */
    function FullPath(path: string): (r: Located)
      ensures r.err == Some(ErrEmptyPath) <==> path == []
      ensures r.err == None || r.err == Some(ErrEmptyPath)
      ensures HasPrefix(r.loc, vol)
      ensures HasPrefix(path, "/") ==> "/" + r.loc[|vol|..] == path
      ensures !HasPrefix(path, "/") ==> r.loc == vol + path
    {
      Located(vol + TrimPrefix(path, "/"), if |path| <= 0 then Some(ErrEmptyPath) else None)
    }

    /** Link: the local "link" of a path is its full path; the expiry is ignored. */
    function Link(path: string, expire: int): (r: Located)
      ensures r == FullPath(path)
    {
      FullPath(path)
    }

    /** How many leading characters Walk cuts from each walked path: vol[:2] panics for a volume shorter than 2. */
    function StripOffset(): nat
      requires |vol| >= 2
    {
      if vol[..2] == "./" then |vol| - 2 else |vol|
    }

    /** The offset as evidently intended: strings.HasPrefix instead of slicing, defined for every volume. */
    function IntendedStripOffset(): nat
    {
      if HasPrefix(vol, "./") then |vol| - 2 else |vol|
    }

    /**
     * Walk: the walk under fullPath(path) is a collaborator, `walker`; the
     * callback is called, in walk order, on every non-directory entry with
     * StripOffset() characters cut off, and `visited` records those calls.
     * Errors while walking are skipped (SkipNode), so only a failure of the
     * walk itself is returned. fullPath's check comes first, so an empty path
     * returns ErrEmptyPath on any volume; only a non-empty path reaches
     * vol[:2] and the cut path[slice:], which Go evaluates as panicking slices.
     */
    method Walk(path: string, walker: string -> Result<seq<Dirent>, FsError>) returns (err: Option<FsError>, visited: seq<string>)
      requires path != [] ==> |vol| >= 2
      requires path != [] && walker(FullPath(path).loc).Ok? ==>
        WalkedPathsFit(walker(FullPath(path).loc).value, StripOffset())
      ensures path == [] ==> err == Some(ErrEmptyPath) && visited == []
      ensures path != [] && walker(FullPath(path).loc).Err? ==>
        err == Some(walker(FullPath(path).loc).error) && visited == []
      ensures path != [] && walker(FullPath(path).loc).Ok? ==>
        err == None && visited == Visits(walker(FullPath(path).loc).value, StripOffset())
    {
      var located := FullPath(path);
      if located.err.Some? {
        return located.err, [];
      }
      var slice := |vol|;
      if vol[..2] == "./" {
        slice := slice - 2;
      }
      var walked := walker(located.loc);
      if walked.Err? {
        return Some(walked.error), [];
      }
      visited := VisitAll(walked.value, slice);
      err := None;
    }

    /** Put: write the body to fullPath(path), creating the file with mode 0766 when it is new. */
    method Put(disk: Disk, path: string, body: Bytes) returns (err: Option<FsError>)
      modifies disk
      ensures path == [] ==> err == Some(ErrEmptyPath) && disk.files == old(disk.files)
      ensures path != [] ==> err == None && disk.files == Written(old(disk.files), FullPath(path).loc, body, PutMode)
    {
      var located := FullPath(path);
      if located.err.Some? {
        return located.err;
      }
      disk.files := Written(disk.files, located.loc, body, PutMode);
      err := None;
    }

    /** Create: open fullPath(path) truncated, creating it with mode 0766 when it is new. */
    method Create(disk: Disk, path: string) returns (err: Option<FsError>)
      modifies disk
      ensures path == [] ==> err == Some(ErrEmptyPath) && disk.files == old(disk.files)
      ensures path != [] ==> err == None && disk.files == Written(old(disk.files), FullPath(path).loc, [], PutMode)
    {
      var located := FullPath(path);
      if located.err.Some? {
        return located.err;
      }
      disk.files := Written(disk.files, located.loc, [], PutMode);
      err := None;
    }

    /** Get: the bytes of fullPath(path). */
    method Get(disk: Disk, path: string) returns (r: Result<Bytes, FsError>)
      ensures path == [] ==> r == Err(ErrEmptyPath)
      ensures path != [] && FullPath(path).loc in disk.files ==> r == Ok(disk.files[FullPath(path).loc].data)
      ensures path != [] && FullPath(path).loc !in disk.files ==> r == Err(NotExist(FullPath(path).loc))
    {
      var located := FullPath(path);
      if located.err.Some? {
        return Err(located.err.value);
      }
      if located.loc !in disk.files {
        return Err(NotExist(located.loc));
      }
      r := Ok(disk.files[located.loc].data);
    }

    /** Delete: remove fullPath(path), and nothing else. */
    method Delete(disk: Disk, path: string) returns (err: Option<FsError>)
      modifies disk
      ensures path == [] ==> err == Some(ErrEmptyPath) && disk.files == old(disk.files)
      ensures path != [] && FullPath(path).loc !in old(disk.files) ==>
        err == Some(NotExist(FullPath(path).loc)) && disk.files == old(disk.files)
      ensures path != [] && FullPath(path).loc in old(disk.files) ==>
        err == None && disk.files == old(disk.files) - {FullPath(path).loc}
    {
      var located := FullPath(path);
      if located.err.Some? {
        return located.err;
      }
      if located.loc !in disk.files {
        return Some(NotExist(located.loc));
      }
      disk.files := disk.files - {located.loc};
      err := None;
    }

    /**
     * Copy: read `src` and write its bytes to `dst`, both host paths taken as
     * given (not placed under the volume). A new `dst` gets the mode of the
     * last option map whose "mode" is an int, 0644 without one.
     */
    method Copy(disk: Disk, src: string, dst: string, options: seq<OptionMap>) returns (err: Option<FsError>)
      modifies disk
      ensures src !in old(disk.files) ==> err == Some(NotExist(src)) && disk.files == old(disk.files)
      ensures src in old(disk.files) ==>
        err == None &&
        disk.files == Written(old(disk.files), dst, old(disk.files)[src].data, Chosen(options, "mode", DefaultCopyMode, AsInt))
      ensures src in old(disk.files) ==>
        dst in disk.files && disk.files[dst].data == old(disk.files)[src].data &&
        src in disk.files && disk.files[src] == old(disk.files)[src]
    {
      var mode := Choose(options, "mode", DefaultCopyMode, AsInt);
      if src !in disk.files {
        return Some(NotExist(src));
      }
      var input := disk.files[src].data;
      disk.files := Written(disk.files, dst, input, mode);
      err := None;
    }
  }

  /** A volume that already ends in "/" is kept, so normalising twice changes nothing. */
  lemma NewStorageIdempotent(vol: string)
    requires vol != []
    ensures NewStorage(NewStorage(vol).vol) == NewStorage(vol)
  {
  }

  /** The volume without its trailing slash is the volume given, when it had none. */
  lemma NewStorageAppendsSlash(vol: string)
    requires vol != [] && vol[|vol| - 1] != '/'
    ensures NewStorage(vol).vol == vol + "/"
  {
  }

  /** fullPath("/") is the volume itself, without error; fullPath("") is the volume too, with ErrEmptyPath. */
  lemma FullPathOfRootAndEmpty(s: Storage)
    ensures s.FullPath("/") == Located(s.vol, None)
    ensures s.FullPath("") == Located(s.vol, Some(ErrEmptyPath))
  {
    assert s.vol + "" == s.vol;
  }

  /** Only one leading slash is trimmed: "//a" becomes vol + "/a". */
  lemma FullPathTrimsOneSlash(s: Storage, p: string)
    ensures s.FullPath("/" + p) == Located(s.vol + p, if "/" + p == [] then Some(ErrEmptyPath) else None)
    ensures s.FullPath("//" + p).loc == s.vol + "/" + p
  {
    assert ("/" + p)[..1] == "/";
    assert ("//" + p)[..1] == "/" && ("//" + p)[1..] == "/" + p;
  }

  /** The example of the package's tests: Link("test.txt") on NewStorage("./testdata") is "./testdata/test.txt". */
  lemma LinkOfTestFile(expire: int)
    ensures NewStorage("./testdata").Link("test.txt", expire) == Located("./testdata/test.txt", None)
  {
    var s := NewStorage("./testdata");
    assert s.vol == "./testdata/";
    assert !HasPrefix("test.txt", "/");
  }

  /** Walking NewStorage("./testdata") cuts "testdata/" off godirwalk's "testdata/testwalk.txt". */
  lemma WalkOfTestVolume()
    ensures NewStorage("./testdata").StripOffset() == 9
    ensures Visits([Dirent("testdata", true), Dirent("testdata/testwalk.txt", false)], 9) == ["testwalk.txt"]
  {
    var entries := [Dirent("testdata", true), Dirent("testdata/testwalk.txt", false)];
    assert entries[..1][..0] == [] && entries[..1] == [Dirent("testdata", true)];
    assert "testdata/testwalk.txt"[9..] == "testwalk.txt";
  }

  /** Every walked name is a file entry with the offset cut off, and there is one per file entry. */
  lemma {:induction false} VisitsAreFiles(entries: seq<Dirent>, offset: nat)
    requires WalkedPathsFit(entries, offset)
    ensures |Visits(entries, offset)| <= |entries|
    ensures forall x :: x in Visits(entries, offset) ==>
      exists i :: 0 <= i < |entries| && !entries[i].isDir && x == entries[i].name[offset..]
    decreases |entries|
  {
    if entries != [] {
      var n := |entries| - 1;
      var init := entries[..n];
      assert forall i :: 0 <= i < n ==> init[i] == entries[i];
      VisitsAreFiles(init, offset);
      forall x | x in Visits(entries, offset)
        ensures exists i :: 0 <= i < |entries| && !entries[i].isDir && x == entries[i].name[offset..]
      {
        if x !in Visits(init, offset) {
          assert !entries[n].isDir && x == entries[n].name[offset..];
        } else {
          var i :| 0 <= i < n && !init[i].isDir && x == init[i].name[offset..];
          assert entries[i] == init[i];
        }
      }
    }
  }

  /** NewStorage("/") gives the volume "/", too short for Walk's vol[:2]: Walk panics on the root volume. */
  lemma RootVolumeCannotWalk()
    ensures NewStorage("/").vol == "/" && |NewStorage("/").vol| < 2
  {
  }

  /** On the root volume an empty path still returns ErrEmptyPath: fullPath's error comes before vol[:2]. */
  method WalkEmptyPathOnRootVolume(walker: string -> Result<seq<Dirent>, FsError>) returns (err: Option<FsError>)
    ensures err == Some(ErrEmptyPath)
  {
    var s := NewStorage("/");
    var visited;
    err, visited := s.Walk("", walker);
  }

  /** The intended offset agrees with Walk's wherever Walk's is defined, and never exceeds the volume's length. */
  lemma IntendedStripOffsetAgrees(s: Storage)
    ensures s.IntendedStripOffset() <= |s.vol|
    ensures |s.vol| >= 2 ==> s.IntendedStripOffset() == s.StripOffset()
    ensures s.vol == "/" ==> s.IntendedStripOffset() == 1
  {
  }

  /** Put(p, b) followed by Get(p) yields b. */
  method PutThenGet(s: Storage, disk: Disk, path: string, body: Bytes) returns (r: Result<Bytes, FsError>)
    requires path != []
    modifies disk
    ensures r == Ok(body)
  {
    var err := s.Put(disk, path, body);
    r := s.Get(disk, path);
  }

  /** Put then Delete: the file is gone again, every other file is as before, and Get reports it missing. */
  method PutThenDelete(s: Storage, disk: Disk, path: string, body: Bytes) returns (r: Result<Bytes, FsError>)
    requires path != []
    modifies disk
    ensures disk.files == old(disk.files) - {s.FullPath(path).loc}
    ensures r == Err(NotExist(s.FullPath(path).loc))
  {
    var err := s.Put(disk, path, body);
    err := s.Delete(disk, path);
    r := s.Get(disk, path);
  }

  /**
   * The copy of the package's tests: Put a file, Copy it by its full path to
   * another full path, and both paths then hold the bytes put; a new
   * destination gets the mode from the options.
   */
  method PutThenCopy(s: Storage, disk: Disk, path: string, dest: string, body: Bytes, options: seq<OptionMap>)
    returns (fromSrc: Result<Bytes, FsError>, fromDst: Result<Bytes, FsError>)
    requires path != [] && dest != []
    requires s.FullPath(dest).loc !in disk.files && s.FullPath(dest).loc != s.FullPath(path).loc
    modifies disk
    ensures fromSrc == Ok(body) && fromDst == Ok(body)
    ensures s.FullPath(dest).loc in disk.files && disk.files[s.FullPath(dest).loc].mode == FileMode(Chosen(options, "mode", DefaultCopyMode, AsInt))
  {
    var err := s.Put(disk, path, body);
    err := s.Copy(disk, s.FullPath(path).loc, s.FullPath(dest).loc, options);
    fromSrc := s.Get(disk, path);
    fromDst := s.Get(disk, dest);
  }

  /** The modes the package's tests expect: 0711 from {"mode": 0711}, 0644 with no options. */
  lemma CopyModesOfTests()
    ensures Chosen([map["mode" := Int(457)]], "mode", DefaultCopyMode, AsInt) == 457
    ensures Chosen([], "mode", DefaultCopyMode, AsInt) == 420
    ensures Chosen([map["mode" := Other("fs.FileMode")]], "mode", DefaultCopyMode, AsInt) == 420
  {
  }

  /** The conversion keeps the low 32 bits: a mode option of 2^32 + 0644 writes 0644. */
  lemma CopyModeWrapsTo32Bits()
    ensures FileMode(Chosen([map["mode" := Int(0x1_0000_0000 + 420)]], "mode", DefaultCopyMode, AsInt)) == 420
  {
  }
}
