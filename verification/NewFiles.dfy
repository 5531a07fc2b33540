/** `NewFile`: a file that is written under a temporary name and then committed or abandoned. */
module NewFiles {
  import opened Options
  import opened FileSystems
  import opened FileCommits
  import opened FileMoves

  /** The three calls of the creation work: the file, its mode, its owner. */
  predicate Creates(f: Files, reserved: set<Path>, path: Path, answers: nat -> Answer, n: nat) {
    MakesTemp(f, reserved, path, answers(n)) && answers(n + 1).works && answers(n + 2).works
  }

  class NewFile {
    const fs: FileSystem
    const finalPath: Path
    var tempPath: Path
    /** Whether the descriptor is valid. */
    var open: bool

    constructor (fs: FileSystem, path: Path)
      ensures this.fs == fs && finalPath == path && !open
    {
      this.fs, finalPath := fs, path;
      tempPath, open := "", false;
    }

    /** Holds from the creation of the temporary file on. */
    ghost predicate Valid()
      reads this, fs
    {
      && fs.Valid()
      && finalPath in fs.reserved && tempPath !in fs.reserved
      && NotDirectory(fs.files, tempPath)
    }

    /** The temporary file is created and given its mode and owner. A failure after the creation
        leaves the file behind, for the destructor to remove. */
    method Init() returns (ok: bool)
      requires fs.Valid() && finalPath in fs.reserved && !open
      modifies this, fs
      ensures fs.Valid() && (ok ==> open)
      ensures old(fs.failures) <= fs.failures && (ok <==> fs.failures == old(fs.failures))
      ensures ok <==> Creates(old(fs.files), fs.reserved, finalPath, fs.answers, old(fs.calls))
      ensures ok ==> fs.calls == old(fs.calls) + 3
      ensures open ==>
        && Valid() && tempPath in fs.files && tempPath !in old(fs.files) && IsTempPath(finalPath, tempPath)
        && fs.files == old(fs.files)[tempPath := File(fs.files[tempPath].inode, "")]
      ensures !open ==> fs.files == old(fs.files)
    {
      var temp := fs.MakeTemp(finalPath);
      if temp.None? {
        return false;
      }
      tempPath, open := temp.value, true;
      ok := fs.Attempt();  // `fchmod`
      if !ok {
        return;
      }
      ok := fs.Attempt();  // `fchown`
    }

    static method Create(fs: FileSystem, path: Path) returns (file: NewFile?)
      requires fs.Valid() && path in fs.reserved
      modifies fs
      ensures fs.Valid()
      ensures old(fs.failures) <= fs.failures && (file != null <==> fs.failures == old(fs.failures))
      ensures file != null <==> Creates(old(fs.files), fs.reserved, path, fs.answers, old(fs.calls))
      ensures file != null ==> fs.calls == old(fs.calls) + 3
      ensures file == null ==> fs.files == old(fs.files)
      ensures file != null ==>
        && fresh(file) && file.fs == fs && file.finalPath == path && file.open && file.Valid()
        && file.tempPath in fs.files
        && file.tempPath !in old(fs.files) && IsTempPath(path, file.tempPath)
        && fs.files == old(fs.files)[file.tempPath := File(fs.files[file.tempPath].inode, "")]
    {
      file := new NewFile(fs, path);
      var ok := file.Init();
      if !ok {
        file.Cleanup();
        return null;
      }
    }

    /** `close`: fails on an invalid descriptor, and may fail otherwise. */
    method Keep() returns (ok: bool)
      modifies this`open, fs`failures, fs`calls
      ensures !open && (ok <==> old(open) && fs.answers(old(fs.calls)).works)
      ensures fs.calls == old(fs.calls) + if old(open) then 1 else 0
      ensures fs.failures == old(fs.failures) + if ok || !old(open) then 0 else 1
    {
      ok := false;
      if open {
        ok := fs.Attempt();
      }
      open := false;
    }

    method Unlink()
      requires fs.Valid() && NotDirectory(fs.files, tempPath)
      modifies fs`files, fs`history
      ensures fs.Valid() && fs.files == old(fs.files) - {tempPath}
    {
      fs.Unlink(tempPath);
    }

    method Cleanup()
      requires fs.Valid() && (open ==> Valid())
      modifies this`open, fs`files, fs`history
      ensures fs.Valid() && !open
      ensures fs.files == if old(open) then old(fs.files) - {tempPath} else old(fs.files)
    {
      if open {
        Unlink();
        open := false;
      }
    }

    /** The new file replaces the one at the final path, or it is removed. */
    method CommitOrAbandon() returns (ok: bool)
      requires Valid()
      modifies this`open, fs
      ensures Valid() && !open
      ensures old(fs.failures) <= fs.failures
      ensures ok <==> && fs.failures == old(fs.failures) && old(open)
                      && tempPath in old(fs.files) && NotDirectory(old(fs.files), finalPath)
      ensures ok <==> && old(open) && fs.answers(old(fs.calls)).works && fs.answers(old(fs.calls) + 1).works
                      && tempPath in old(fs.files) && NotDirectory(old(fs.files), finalPath)
      ensures ok ==> tempPath in old(fs.files) && fs.files == Renamed(old(fs.files), tempPath, finalPath)
      ensures !ok ==> fs.files == old(fs.files) - {tempPath}
    {
      ok := Keep();
      if ok {
        ok := fs.Rename(tempPath, finalPath, false);
      }
      if !ok {
        Unlink();
      }
    }
  }

  // --- Many files at once -----------------------------------------------------------------------

  /** From the temporary to the final path, file by file. */
  function MovesOf(files: seq<NewFile>): (moves: seq<Move>)
    reads files`tempPath
    ensures |moves| == |files|
    ensures forall i :: 0 <= i < |files| ==> moves[i] == Move(files[i].tempPath, files[i].finalPath)
  {
    if files == [] then [] else [Move(files[0].tempPath, files[0].finalPath)] + MovesOf(files[1..])
  }

  ghost predicate AllUsable(fs: FileSystem, files: seq<NewFile>, removes: seq<Path>)
    reads fs, files
  {
    && fs.Valid()
    && (forall p :: p in removes ==> p in fs.reserved)
    && forall f :: f in files ==> f.fs == fs && f.Valid() && (f.open ==> f.tempPath in fs.files)
  }

  /** The guard of `CommitAllOrAbandon`. */
  method UnlinkAll(fs: FileSystem, files: seq<NewFile>)
    requires fs.Valid() && forall f :: f in files ==> f.fs == fs && f.Valid()
    modifies fs`files, fs`history
    ensures fs.Valid() && Abandoned(old(fs.files), fs.files, MovesOf(files))
  {
    hide MovesOf, UniqueInodes;
    for n := 0 to |files|
      invariant fs.Valid() && forall f :: f in files ==> f.fs == fs && f.Valid()
      invariant forall i :: 0 <= i < n ==> files[i].tempPath !in fs.files
      invariant forall p :: p !in Sources(MovesOf(files)) ==> Lookup(fs.files, p) == Lookup(old(fs.files), p)
    {
      assert MovesOf(files)[n].src in Sources(MovesOf(files));
      files[n].Unlink();
    }
  }

  lemma ReadyToMove(fs: FileSystem, files: seq<NewFile>, removes: seq<Path>, moves: seq<Move>)
    requires AllUsable(fs, files, removes) && moves == MovesOf(files)
    requires forall f :: f in files ==> f.tempPath in fs.files
    ensures Spared(fs, fs.files, moves, removes)
    ensures forall m :: m in moves ==> NotDirectory(fs.files, m.src)
  {
  }

  /** `NewFile::CommitAllOrAbandon`. All descriptors are closed first; if one cannot be, all the
      temporary files are removed and the descriptors after it stay as they are. */
  method CommitAllOrAbandon(fs: FileSystem, files: seq<NewFile>, removes: seq<Path>) returns (ok: bool)
    requires AllUsable(fs, files, removes) && Distinct(MovesOf(files), removes)
    modifies fs, set f | f in files :: f`open
    ensures fs.Valid()
    ensures ok ==> Committed(old(fs.files), fs.files, MovesOf(files), removes)
    ensures !ok ==> Abandoned(old(fs.files), fs.files, MovesOf(files))
    ensures ok ==> forall f :: f in files ==> old(f.open) && !f.open
    ensures old(fs.failures) <= fs.failures
    ensures ok <==> && fs.failures == old(fs.failures) && (forall f :: f in files ==> old(f.open))
                    && forall o :: o in Olds(MovesOf(files), removes) ==> NotDirectory(old(fs.files), o)
  {
    hide Distinct, Spared, Committed, Abandoned, MovesOf, UniqueInodes;
    ghost var f0, asked := fs.files, MovesOf(files);
    DistinctFiles(files, removes);
    var moves := [];
    for n := 0 to |files|
      invariant AllUsable(fs, files, removes) && asked == MovesOf(files) && moves == asked[..n]
      invariant fs.files == f0 && fs.failures == old(fs.failures)
      invariant forall i :: 0 <= i < n ==> old(files[i].open) && !files[i].open && files[i].tempPath in f0
      invariant forall i :: n <= i < |files| ==> files[i].open == old(files[i].open)
    {
      assert files[n] in files && files[n].fs == fs;
      ok := files[n].Keep();
      if !ok {
        UnlinkAll(fs, files);
        return false;
      }
      moves := moves + [Move(files[n].tempPath, files[n].finalPath)];
    }
    assert moves == asked;
    ReadyToMove(fs, files, removes, moves);
    ghost var temps, commit;
    ok, temps, commit := MoveAllOrAbandon(fs, moves, removes);
  }

  lemma DistinctFiles(files: seq<NewFile>, removes: seq<Path>)
    requires Distinct(MovesOf(files), removes)
    ensures forall i, j :: 0 <= i < j < |files| ==> files[i] != files[j]
  {
    hide MovesOf;
    var moves := MovesOf(files);
    assert forall i, j :: 0 <= i < j < |moves| ==> moves[i].src != moves[j].src;
    hide Distinct;
    forall i, j | 0 <= i < j < |files| ensures files[i] != files[j] {
      assert moves[i].src == files[i].tempPath && moves[j].src == files[j].tempPath;
    }
  }

  // --- A whole lifetime ---------------------------------------------------------------------------

  /** What the owner of a new file may do with it. */
  datatype Use = Write(content: string) | Keep | CommitOrAbandon | Cleanup

  /** The uses before the descriptor is closed for the first time. */
  function FirstClosing(uses: seq<Use>): (k: nat)
    ensures k <= |uses| && (k < |uses| ==> !uses[k].Write?)
    ensures forall i :: 0 <= i < k ==> uses[i].Write?
  {
    if uses == [] || !uses[0].Write? then 0 else 1 + FirstClosing(uses[1..])
  }

  function LastContent(uses: seq<Use>, n: nat): string
    requires n <= |uses|
  {
    if n == 0 then "" else if uses[n - 1].Write? then uses[n - 1].content else LastContent(uses, n - 1)
  }

  /** The temporary file survives: it was kept first, and no later attempt to commit removed it. */
  ghost predicate LeavesTemp(uses: seq<Use>) {
    var k := FirstClosing(uses);
    k < |uses| && uses[k].Keep? && forall i :: k < i < |uses| ==> !uses[i].CommitOrAbandon?
  }

  /** The file system after the first `n` uses and before the destruction. */
  ghost predicate AfterUses(f0: Files, f: Files, path: Path, temp: Path, inode: int, uses: seq<Use>, n: nat,
      committed: bool)
    requires n <= |uses|
  {
    var k := FirstClosing(uses);
    var content := LastContent(uses, if n < k then n else k);
    if n <= k then !committed && f == f0[temp := File(inode, content)]
    else if uses[k].CommitOrAbandon? then f == if committed then f0[path := File(inode, content)] else f0
    else
      && !committed
      && f == if uses[k].Keep? && forall i :: k < i < n ==> !uses[i].CommitOrAbandon?
              then f0[temp := File(inode, content)] else f0
  }

  /** What one use does to the files; `ok`: it commits. */
  ghost predicate Effect(f: Files, f': Files, path: Path, temp: Path, inode: int, isOpen: bool, use: Use, ok: bool) {
    match use
    case Write(content) => !ok && f' == if isOpen then f[temp := File(inode, content)] else f
    case Keep => !ok && f' == f
    case CommitOrAbandon =>
      if ok then isOpen && path != temp && temp in f && f' == Renamed(f, temp, path) else f' == f - {temp}
    case Cleanup => !ok && f' == if isOpen then f - {temp} else f
  }

  /** One use of a new file. */
  method UseOnce(file: NewFile, use: Use, ghost inode: int) returns (ok: bool)
    requires file.Valid() && (file.open ==> Lookup(file.fs.files, file.tempPath).Some?)
    requires file.open ==> file.fs.files[file.tempPath].inode == inode
    modifies file`open, file.fs
    ensures file.Valid() && (file.open <==> old(file.open) && use.Write?)
    ensures Effect(old(file.fs.files), file.fs.files, file.finalPath, file.tempPath, inode, old(file.open), use, ok)
    ensures use.Write? ==> file.fs.calls == old(file.fs.calls)
    ensures use.CommitOrAbandon? && old(file.open) ==>
      (ok <==> && file.fs.answers(old(file.fs.calls)).works && file.fs.answers(old(file.fs.calls) + 1).works
               && NotDirectory(old(file.fs.files), file.finalPath))
  {
    ok := false;
    match use {
      case Write(content) =>
        if file.open {
          file.fs.Write(file.tempPath, content);
        }
      case Keep =>
        var _ := file.Keep();
      case CommitOrAbandon =>
        ok := file.CommitOrAbandon();
      case Cleanup =>
        file.Cleanup();
    }
  }

  lemma AfterOneWrite(f0: Files, f: Files, f': Files, path: Path, temp: Path, inode: int, uses: seq<Use>, n: nat,
      ok: bool)
    requires n < FirstClosing(uses)
    requires AfterUses(f0, f, path, temp, inode, uses, n, false)
    requires Effect(f, f', path, temp, inode, true, uses[n], ok)
    ensures !ok && AfterUses(f0, f', path, temp, inode, uses, n + 1, false)
  {
    hide Renamed, FirstClosing;
  }

  lemma AfterClosing(f0: Files, f: Files, f': Files, path: Path, temp: Path, inode: int, uses: seq<Use>, ok: bool)
    requires FirstClosing(uses) < |uses| && temp !in f0 && temp != path
    requires AfterUses(f0, f, path, temp, inode, uses, FirstClosing(uses), false)
    requires Effect(f, f', path, temp, inode, true, uses[FirstClosing(uses)], ok)
    ensures AfterUses(f0, f', path, temp, inode, uses, FirstClosing(uses) + 1, ok)
  {
    hide FirstClosing, LastContent;
    var made := File(inode, LastContent(uses, FirstClosing(uses)));
    assert f0[temp := made] - {temp} == f0;
    assert Renamed(f0[temp := made], temp, path) == f0[path := made];
  }

  lemma AfterLaterUse(f0: Files, f: Files, f': Files, path: Path, temp: Path, inode: int, uses: seq<Use>, n: nat,
      committed: bool, ok: bool)
    requires FirstClosing(uses) < n < |uses| && temp !in f0 && temp != path
    requires AfterUses(f0, f, path, temp, inode, uses, n, committed)
    requires Effect(f, f', path, temp, inode, false, uses[n], ok)
    ensures !ok && AfterUses(f0, f', path, temp, inode, uses, n + 1, committed)
  {
    hide FirstClosing, LastContent, Renamed;
    var k := FirstClosing(uses);
    var made := File(inode, LastContent(uses, k));
    assert f0[temp := made] - {temp} == f0 && f0 - {temp} == f0 && f0[path := made] - {temp} == f0[path := made];
  }

  /** The net effect: the committed file under the final path, or the kept one under the temporary
      path, or nothing. */
  ghost function Outcome(f0: Files, path: Path, temp: Path, inode: int, uses: seq<Use>, committed: bool): Files {
    var made := File(inode, LastContent(uses, FirstClosing(uses)));
    if committed then f0[path := made]
    else if LeavesTemp(uses) then f0[temp := made]
    else f0
  }

  lemma AfterDestruction(f0: Files, f: Files, f': Files, path: Path, temp: Path, inode: int, uses: seq<Use>,
      committed: bool)
    requires temp !in f0 && temp != path && AfterUses(f0, f, path, temp, inode, uses, |uses|, committed)
    requires f' == if |uses| <= FirstClosing(uses) then f - {temp} else f
    ensures f' == Outcome(f0, path, temp, inode, uses, committed)
  {
    hide FirstClosing, LastContent;
    var made := File(inode, LastContent(uses, FirstClosing(uses)));
    assert f0[temp := made] - {temp} == f0;
  }

  /** Any use of a new file from its creation to its destruction. The calls of the creation come
      first, and then those of the use that closes the file. */
  method Lifetime(fs: FileSystem, path: Path, uses: seq<Use>)
    returns (created: bool, committed: bool, ghost temp: Path, ghost inode: int)
    requires fs.Valid() && path in fs.reserved
    modifies fs
    ensures fs.Valid()
    ensures created <==> Creates(old(fs.files), fs.reserved, path, fs.answers, old(fs.calls))
    ensures committed <==>
      && created && FirstClosing(uses) < |uses| && uses[FirstClosing(uses)].CommitOrAbandon?
      && fs.answers(old(fs.calls) + 3).works && fs.answers(old(fs.calls) + 4).works
      && NotDirectory(old(fs.files), path)
    ensures !created ==> fs.files == old(fs.files)
    ensures created ==> temp !in old(fs.files) && temp != path
    ensures created ==> fs.files == Outcome(old(fs.files), path, temp, inode, uses, committed)
  {
    assert LastContent(uses, 0) == "";
    hide Effect, Creates, LastContent, UniqueInodes;
    ghost var f0, c := fs.files, fs.calls;
    committed, temp, inode := false, "", 0;
    var file := NewFile.Create(fs, path);
    if file == null {
      return false, false, temp, inode;
    }
    temp, inode := file.tempPath, fs.files[file.tempPath].inode;
    ghost var k := FirstClosing(uses);
    for n := 0 to |uses|
      invariant file.Valid() && file.fs == fs && file.finalPath == path && file.tempPath == temp
      invariant file.open <==> n <= k
      invariant n <= k ==> fs.calls == c + 3
      invariant committed <==>
        && n > k && uses[k].CommitOrAbandon?
        && fs.answers(c + 3).works && fs.answers(c + 4).works && NotDirectory(f0, path)
      invariant AfterUses(f0, fs.files, path, temp, inode, uses, n, committed)
    {
      ghost var f := fs.files;
      var ok := UseOnce(file, uses[n], inode);
      if n < k {
        AfterOneWrite(f0, f, fs.files, path, temp, inode, uses, n, ok);
      } else if n == k {
        AfterClosing(f0, f, fs.files, path, temp, inode, uses, ok);
      } else {
        AfterLaterUse(f0, f, fs.files, path, temp, inode, uses, n, committed, ok);
      }
      committed := committed || ok;
    }
    ghost var f := fs.files;
    file.Cleanup();
    AfterDestruction(f0, f, fs.files, path, temp, inode, uses, committed);
    return true, committed, temp, inode;
  }
}
