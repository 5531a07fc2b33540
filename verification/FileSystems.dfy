/** The file system as the calls of artd see it: a map from paths to entries. Every call may fail,
    except the ones a clean-up relies on. */
module FileSystems {
  import opened Options

  type Path = string

  /** Files have an identity, which renaming keeps. */
  datatype Entry = File(inode: int, content: string) | Directory(inode: int)

  type Files = map<Path, Entry>

  function Lookup(f: Files, p: Path): Option<Entry> {
    if p in f then Some(f[p]) else None
  }

  /** No two paths name the same file. */
  ghost predicate UniqueInodes(f: Files) {
    forall p, q :: p in f && q in f && p != q ==> f[p].inode != f[q].inode
  }

  function Inodes(f: Files): set<int> {
    set p | p in f :: f[p].inode
  }

  predicate NotDirectory(f: Files, p: Path) {
    p in f ==> f[p].File?
  }

  function Renamed(f: Files, src: Path, dst: Path): Files
    requires src in f && src != dst
  {
    f[dst := f[src]] - {src}
  }

  /** `final.XXXXXX.tmp` (`NewFile::BuildTempPath`). */
  function BuildTempPath(final: Path, id: string): Path {
    final + "." + id + ".tmp"
  }

  predicate IsTempPath(final: Path, temp: Path) {
    |temp| == |final| + 11 && temp == BuildTempPath(final, temp[|final| + 1..|final| + 7])
  }

  /** The final path, a dot, six characters, and `.tmp`. */
  lemma TempPathIs(final: Path, temp: Path)
    ensures IsTempPath(final, temp) <==>
      |temp| == |final| + 11 && temp[..|final|] == final && temp[|final|] == '.' && temp[|final| + 7..] == ".tmp"
  {
    if |temp| == |final| + 11 {
      var n := |final|;
      var id := temp[n + 1..n + 7];
      assert temp == temp[..n] + [temp[n]] + id + temp[n + 7..];
      var built := BuildTempPath(final, id);
      assert built[..n] == final && built[n] == '.' && built[n + 7..] == ".tmp";
    }
  }

  /** How the surroundings answer a call. */
  datatype Answer = Answer(works: bool, id: string, inode: int)

  /** A temporary file can be created: there is no failure, and the name and the inode are not in use. */
  predicate MakesTemp(f: Files, reserved: set<Path>, final: Path, answer: Answer) {
    && answer.works && |answer.id| == 6
    && BuildTempPath(final, answer.id) !in f && BuildTempPath(final, answer.id) !in reserved
    && answer.inode !in Inodes(f)
  }

  class FileSystem {
    var files: Files

    /** All states since the beginning, the current one last. */
    ghost var history: seq<Files>

    /** How many calls have failed without a reason in the files. */
    ghost var failures: nat

    /** Names that are never picked for a temporary file. */
    const reserved: set<Path>

    /** Whether the call works, and the name and inode a new file would get, call by call. */
    const answers: nat -> Answer

    /** How many calls that may fail have been made. */
    var calls: nat

    constructor (files: Files, reserved: set<Path>, answers: nat -> Answer)
      requires UniqueInodes(files)
      ensures Valid() && this.files == files && this.reserved == reserved && this.answers == answers
      ensures history == [files] && failures == calls == 0
    {
      this.files, this.reserved, this.answers := files, reserved, answers;
      history := [files];
      failures, calls := 0, 0;
    }

    ghost predicate Valid()
      reads this
    {
      UniqueInodes(files)
    }

    /** One more call that may fail. */
    method Attempt() returns (ok: bool)
      modifies this`failures, this`calls
      ensures calls == old(calls) + 1 && (ok <==> answers(old(calls)).works)
      ensures failures == old(failures) + if ok then 0 else 1
    {
      ok := answers(calls).works;
      calls := calls + 1;
      failures := failures + if ok then 0 else 1;
    }

    /** `status`: the entry, if it can be determined at all. */
    method Status(p: Path) returns (known: bool, e: Option<Entry>)
      modifies this`failures, this`calls
      ensures known <==> answers(old(calls)).works
      ensures known ==> e == Lookup(files, p)
      ensures failures == old(failures) + if known then 0 else 1
    {
      known := Attempt();
      e := Lookup(files, p);
    }

    /** `mkstemps`: creates an empty file under a name nothing has. */
    method MakeTemp(final: Path) returns (temp: Option<Path>)
      requires Valid()
      modifies this
      ensures Valid()
      ensures calls == old(calls) + 1
      ensures temp.Some? <==> MakesTemp(old(files), reserved, final, answers(old(calls)))
      ensures temp.None? ==> files == old(files) && history == old(history)
      ensures failures == old(failures) + if temp.Some? then 0 else 1
      ensures temp.Some? ==>
        && temp.value !in old(files) && temp.value !in reserved
        && IsTempPath(final, temp.value)
        && temp.value in files && files[temp.value].File? && files[temp.value].content == ""
        && files[temp.value].inode !in Inodes(old(files))
        && files == old(files)[temp.value := files[temp.value]]
        && history == old(history) + [files]
    {
      var answer := answers(calls);
      calls := calls + 1;
      if !MakesTemp(files, reserved, final, answer) {
        failures := failures + 1;
        return None;
      }
      var path := BuildTempPath(final, answer.id);
      files := files[path := File(answer.inode, "")];
      history := history + [files];
      return Some(path);
    }

    /** `rename` of a file. It cannot replace a directory. */
    method Rename(src: Path, dst: Path, reliable: bool) returns (ok: bool)
      requires Valid() && src != dst && NotDirectory(files, src)
      modifies this
      ensures Valid()
      ensures ok ==> src in old(files) && files == Renamed(old(files), src, dst) && NotDirectory(old(files), dst)
                     && history == old(history) + [files]
      ensures !ok ==> files == old(files) && history == old(history)
      ensures ok <==>
        src in old(files) && NotDirectory(old(files), dst) && (reliable || answers(old(calls)).works)
      ensures failures == old(failures) + if ok || src !in old(files) || !NotDirectory(old(files), dst) then 0 else 1
    {
      if src !in files || (dst in files && files[dst].Directory?) {
        return false;
      }
      if !reliable {
        ok := Attempt();
        if !ok {
          return;
        }
      }
      files := Renamed(files, src, dst);
      history := history + [files];
      return true;
    }

    /** `UnlinkIfExists`, on files only. */
    method Unlink(p: Path)
      requires Valid() && NotDirectory(files, p)
      modifies this`files, this`history
      ensures Valid() && files == old(files) - {p} && history == old(history) + [files]
    {
      files := files - {p};
      history := history + [files];
    }

    /** Writing to an open file replaces its content. */
    method Write(p: Path, content: string)
      requires Valid() && p in files && files[p].File?
      modifies this`files, this`history
      ensures Valid() && files == old(files)[p := File(old(files)[p].inode, content)]
        && history == old(history) + [files]
    {
      files := files[p := File(files[p].inode, content)];
      history := history + [files];
    }
  }
}
