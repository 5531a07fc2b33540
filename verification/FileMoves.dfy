/** `MoveAllOrAbandon` itself: three loops, and a guard that undoes what they did. */
module FileMoves {
  import opened Options
  import opened FileSystems
  import opened FileCommits

  /** A state of the run: the files show the progress, and no old file is lost. */
  ghost predicate Stage(f0: Files, f: Files, moves: seq<Move>, removes: seq<Path>, g: Progress) {
    && UniqueInodes(f0) && UniqueInodes(f)
    && ProgressOk(f0, moves, removes, g) && Shelved(g) && Shows(f0, f, g)
  }

  lemma StageConserved(f0: Files, f: Files, moves: seq<Move>, removes: seq<Path>, g: Progress, temps: map<Path, Path>)
    requires Sources(moves) !! Olds(moves, removes) && Stage(f0, f, moves, removes, g)
    requires forall p :: p in g.temps ==> p in temps && temps[p] == g.temps[p]
    requires forall p :: p in temps ==> temps[p] !in f0
    ensures AllConserved(f0, f, temps, moves, removes)
  {
    forall o | o in f0 && o in Olds(moves, removes) ensures Conserved(f0, f, temps, o) {
      ShowsConserved(f0, f, g, temps, moves, removes, o);
    }
  }

  lemma StageConservedNow(f0: Files, f: Files, moves: seq<Move>, removes: seq<Path>, g: Progress)
    requires Sources(moves) !! Olds(moves, removes) && Stage(f0, f, moves, removes, g)
    ensures AllConserved(f0, f, g.temps, moves, removes)
  {
    StageConserved(f0, f, moves, removes, g, g.temps);
  }

  lemma HistoryGrows(f0: Files, h: seq<Files>, from: nat, temps: map<Path, Path>, moves: seq<Move>,
      removes: seq<Path>, f: Files)
    requires HistoryConserved(f0, h, from, temps, moves, removes) && AllConserved(f0, f, temps, moves, removes)
    ensures HistoryConserved(f0, h + [f], from, temps, moves, removes)
  {
    hide AllConserved;
  }

  lemma MoreTempsInHistory(f0: Files, h: seq<Files>, from: nat, temps: map<Path, Path>, moves: seq<Move>,
      removes: seq<Path>, o: Path, t: Path)
    requires HistoryConserved(f0, h, from, temps, moves, removes) && o !in temps && o != t
    ensures HistoryConserved(f0, h, from, temps[o := t], moves, removes)
  {
    forall i | 0 <= from <= i < |h| ensures AllConserved(f0, h[i], temps[o := t], moves, removes) {
      MoreTempsConserved(f0, h[i], temps, moves, removes, o, t);
    }
  }

  lemma StageStart(f0: Files, moves: seq<Move>, removes: seq<Path>)
    requires UniqueInodes(f0)
    ensures Stage(f0, f0, moves, removes, Progress(map[], map[], map[], {}))
  {
  }

  /** An old file that has not been moved yet is where it was. */
  lemma Untouched(f0: Files, f: Files, moves: seq<Move>, removes: seq<Path>, g: Progress, o: Path)
    requires Sources(moves) !! Olds(moves, removes) && Stage(f0, f, moves, removes, g)
    requires o in Olds(moves, removes) && o !in g.temps && o !in g.done
    ensures Lookup(f, o) == Lookup(f0, o)
  {
    assert Lookup(f, o) == At(f0, g, o);
  }

  // --- One call each ----------------------------------------------------------------------------

  lemma ShelveStep(f0: Files, f: Files, moves: seq<Move>, removes: seq<Path>, g: Progress, o: Path, t: Path, e: Entry)
    requires Sources(moves) !! Olds(moves, removes) && Stage(f0, f, moves, removes, g) && g.done == map[]
      && g.gone == {}
    requires o in Olds(moves, removes) && o in f && f[o].File? && o !in g.temps
    requires t !in f && t !in Listed(moves, removes)
    requires UniqueInodes(Renamed(f[t := e], o, t))
    ensures Stage(f0, Renamed(f[t := e], o, t), moves, removes, g.(temps := g.temps[o := t], back := g.back[t := o]))
  {
    hide UniqueInodes, Sources, Olds;
    var f', g' := Renamed(f[t := e], o, t), g.(temps := g.temps[o := t], back := g.back[t := o]);
    assert Lookup(f, o) == At(f0, g, o) == Lookup(f0, o) by { assert o !in g.back; }
    assert Lookup(f, t) == At(f0, g, t);
    assert t !in g.temps && t !in g.back && t !in f0;
    hide ProgressOk, Shelved;
    forall p ensures Lookup(f', p) == At(f0, g', p) {
      assert Lookup(f, p) == At(f0, g, p);
    }
    ShelveOk(f0, moves, removes, g, o, t);
  }

  lemma ShelveOk(f0: Files, moves: seq<Move>, removes: seq<Path>, g: Progress, o: Path, t: Path)
    requires ProgressOk(f0, moves, removes, g) && Shelved(g) && g.done == map[] && g.gone == {}
    requires o in Olds(moves, removes) && o in f0 && f0[o].File? && o !in g.temps
    requires t !in g.back && t !in f0 && t !in Listed(moves, removes)
    ensures ProgressOk(f0, moves, removes, g.(temps := g.temps[o := t], back := g.back[t := o]))
    ensures Shelved(g.(temps := g.temps[o := t], back := g.back[t := o]))
  {
    hide Sources, Olds, Listed;
  }

  lemma CommitStep(f0: Files, f: Files, moves: seq<Move>, removes: seq<Path>, g: Progress, m: Move)
    requires Sources(moves) !! Olds(moves, removes) && Stage(f0, f, moves, removes, g)
    requires m.src in Sources(moves) && m.dst in Olds(moves, removes) && m.dst !in g.done && m.src !in g.gone
      && (m.dst in f0 ==> m.dst in g.temps)
    requires m.src in f && UniqueInodes(Renamed(f, m.src, m.dst))
    ensures Stage(f0, Renamed(f, m.src, m.dst), moves, removes,
        g.(done := g.done[m.dst := m.src], gone := g.gone + {m.src}))
  {
    hide UniqueInodes, Sources, Olds;
    var f', g' := Renamed(f, m.src, m.dst), g.(done := g.done[m.dst := m.src], gone := g.gone + {m.src});
    assert Lookup(f, m.src) == At(f0, g, m.src);
    assert m.src !in g.done && m.src !in g.temps && m.src !in g.back;
    CommitOk(f0, moves, removes, g, m);
    hide ProgressOk, Shelved;
    forall p ensures Lookup(f', p) == At(f0, g', p) {
      assert Lookup(f, p) == At(f0, g, p);
    }
  }

  lemma CommitOk(f0: Files, moves: seq<Move>, removes: seq<Path>, g: Progress, m: Move)
    requires ProgressOk(f0, moves, removes, g) && Shelved(g)
    requires m.src in Sources(moves) && m.dst in Olds(moves, removes) && m.src in f0
      && (m.dst in f0 ==> m.dst in g.temps)
    ensures ProgressOk(f0, moves, removes, g.(done := g.done[m.dst := m.src], gone := g.gone + {m.src}))
    ensures Shelved(g.(done := g.done[m.dst := m.src], gone := g.gone + {m.src}))
  {
    hide Sources, Olds, Listed;
  }

  lemma UncommitStep(f0: Files, f: Files, moves: seq<Move>, removes: seq<Path>, g: Progress, d: Path)
    requires Sources(moves) !! Olds(moves, removes) && Stage(f0, f, moves, removes, g) && d in g.done
      && UniqueInodes(f - {d})
    ensures Stage(f0, f - {d}, moves, removes, g.(done := g.done - {d}))
  {
    hide UniqueInodes, Sources, Olds;
    var f', g' := f - {d}, g.(done := g.done - {d});
    assert d !in g.gone && d !in g.back;
    forall p ensures Lookup(f', p) == At(f0, g', p) {
      assert Lookup(f, p) == At(f0, g, p);
    }
  }

  lemma DropSourceStep(f0: Files, f: Files, moves: seq<Move>, removes: seq<Path>, g: Progress, src: Path)
    requires Sources(moves) !! Olds(moves, removes) && Stage(f0, f, moves, removes, g) && src in Sources(moves)
      && UniqueInodes(f - {src})
    ensures Stage(f0, f - {src}, moves, removes, g.(gone := g.gone + {src}))
  {
    hide UniqueInodes, Sources, Olds;
    var f', g' := f - {src}, g.(gone := g.gone + {src});
    assert src !in g.done;
    forall p ensures Lookup(f', p) == At(f0, g', p) {
      assert Lookup(f, p) == At(f0, g, p);
    }
  }

  lemma RestoreStep(f0: Files, f: Files, moves: seq<Move>, removes: seq<Path>, g: Progress, o: Path)
    requires Sources(moves) !! Olds(moves, removes) && Stage(f0, f, moves, removes, g) && g.done == map[]
      && o in g.temps
    ensures g.temps[o] in f && f[g.temps[o]] == f0[o] && g.temps[o] != o && o !in f
    ensures UniqueInodes(Renamed(f, g.temps[o], o)) ==>
      Stage(f0, Renamed(f, g.temps[o], o), moves, removes, g.(temps := g.temps - {o}, back := g.back - {g.temps[o]}))
  {
    hide UniqueInodes, Sources, Olds;
    var t := g.temps[o];
    assert Lookup(f, t) == At(f0, g, t) && Lookup(f, o) == At(f0, g, o);
    assert t !in g.gone && t !in g.temps && o !in g.gone;
    var f', g' := Renamed(f, t, o), g.(temps := g.temps - {o}, back := g.back - {t});
    assert o !in g.back;
    forall p ensures Lookup(f', p) == At(f0, g', p) {
      assert Lookup(f, p) == At(f0, g, p);
    }
  }

  // --- The loops --------------------------------------------------------------------------------

  /** An old file that was moved away: its path and the temporary path. */
  datatype Moved = Moved(original: Path, temp: Path)

  /** The list of the code and the map of the specification say the same. */
  ghost predicate ListsTemps(moved: seq<Moved>, temps: map<Path, Path>) {
    && (forall i :: 0 <= i < |moved| ==> moved[i].original in temps && temps[moved[i].original] == moved[i].temp)
    && (forall i, j :: 0 <= i < j < |moved| ==> moved[i].original != moved[j].original)
    && (forall o :: o in temps ==> Moved(o, temps[o]) in moved)
  }

  lemma ListsOneMore(moved: seq<Moved>, temps: map<Path, Path>, o: Path, t: Path)
    requires ListsTemps(moved, temps) && o !in temps
    ensures ListsTemps(moved + [Moved(o, t)], temps[o := t])
  {
    var moved', temps' := moved + [Moved(o, t)], temps[o := t];
    forall p | p in temps' ensures Moved(p, temps'[p]) in moved' {
      if p != o {
        assert Moved(p, temps[p]) in moved;
      } else {
        assert moved'[|moved|] == Moved(p, temps'[p]);
      }
    }
  }

  /** No listed path is ever picked for a temporary file: a source because it exists, or any path
      by assumption. */
  ghost predicate Spared(fs: FileSystem, f0: Files, moves: seq<Move>, removes: seq<Path>) {
    Olds(moves, removes) <= fs.reserved && forall p :: p in Sources(moves) ==> p in fs.reserved || p in f0
  }

  ghost predicate Acceptable(fs: FileSystem, f0: Files, moves: seq<Move>, removes: seq<Path>)
    reads fs
  {
    && fs.Valid() && UniqueInodes(f0)
    && Distinct(moves, removes)
    && Spared(fs, f0, moves, removes)
    && forall m :: m in moves ==> NotDirectory(f0, m.src)
  }

  lemma TempIsNotListed(fs: FileSystem, f0: Files, f: Files, moves: seq<Move>, removes: seq<Path>, g: Progress, t: Path)
    requires Sources(moves) !! Olds(moves, removes) && Spared(fs, f0, moves, removes)
    requires Stage(f0, f, moves, removes, g) && g.gone == {}
    requires t !in f && t !in fs.reserved
    ensures t !in Listed(moves, removes)
  {
    hide Olds, Sources;
    assert Lookup(f, t) == At(f0, g, t);
  }

  lemma OriginalsAreOlds(moves: seq<Move>, removes: seq<Path>)
    requires Distinct(moves, removes)
    ensures var all := Originals(moves, removes);
      && (forall i :: 0 <= i < |all| ==> all[i] in Olds(moves, removes))
      && (forall o :: o in Olds(moves, removes) ==> o in all)
      && (forall i, j :: 0 <= i < j < |all| ==> all[i] != all[j])
  {
    var all := Originals(moves, removes);
    forall o | o in Olds(moves, removes) ensures o in all {
      if o in removes {
        var j :| 0 <= j < |removes| && removes[j] == o;
        assert all[|moves| + j] == o;
      } else {
        var m :| m in moves && m.dst == o;
        var i :| 0 <= i < |moves| && moves[i] == m;
        assert all[i] == o;
      }
    }
    forall i, j | 0 <= i < j < |all| ensures all[i] != all[j] {
      if i < |moves| <= j {
        assert removes[j - |moves|] in removes;
      }
    }
  }

  /** Its body: one old file moves away, or nothing changes. */
  method ShelveOne(fs: FileSystem, moves: seq<Move>, removes: seq<Path>, original: Path, moved: seq<Moved>,
                   ghost f0: Files, ghost g: Progress, ghost from: nat)
    returns (ok: bool, moved': seq<Moved>, ghost g': Progress)
    requires Acceptable(fs, f0, moves, removes) && Sources(moves) !! Olds(moves, removes)
    requires Stage(f0, fs.files, moves, removes, g) && g.done == map[] && g.gone == {}
    requires original in Olds(moves, removes) && original in fs.files && fs.files[original].File?
      && original !in g.temps
    requires ListsTemps(moved, g.temps) && from <= |fs.history|
    requires HistoryConserved(f0, fs.history, from, g.temps, moves, removes)
    modifies fs
    ensures Acceptable(fs, f0, moves, removes)
    ensures Stage(f0, fs.files, moves, removes, g') && g'.done == map[] && g'.gone == {}
    ensures ListsTemps(moved', g'.temps)
    ensures if ok then g'.temps.Keys == g.temps.Keys + {original} else g' == g && fs.files == old(fs.files)
    ensures fs.failures == old(fs.failures) + if ok then 0 else 1
    ensures old(fs.history) <= fs.history
    ensures HistoryConserved(f0, fs.history, from, g'.temps, moves, removes)
  {
    hide ProgressOk, Shelved, Shows, AllConserved, HistoryConserved, UniqueInodes, Distinct, Sources, Olds;
    hide ListsTemps, Spared;
    var temp := fs.MakeTemp(original);
    if temp.None? {
      return false, moved, g;
    }
    var t := temp.value;
    ghost var f, e := old(fs.files), fs.files[t];
    TempIsNotListed(fs, f0, f, moves, removes, g, t);
    StageConservedNow(f0, f, moves, removes, g);
    CreatedConserved(f0, f, g.temps, moves, removes, t, e);
    HistoryGrows(f0, old(fs.history), from, g.temps, moves, removes, fs.files);
    ghost var h := fs.history;
    var renamed := fs.Rename(original, t, false);
    if !renamed {
      fs.Unlink(t);
      assert fs.files == f;
      HistoryGrows(f0, h, from, g.temps, moves, removes, f);
      return false, moved, g;
    }
    ShelveStep(f0, f, moves, removes, g, original, t, e);
    g' := g.(temps := g.temps[original := t], back := g.back[t := original]);
    moved' := moved + [Moved(original, t)];
    ListsOneMore(moved, g.temps, original, t);
    StageConservedNow(f0, fs.files, moves, removes, g');
    MoreTempsInHistory(f0, h, from, g.temps, moves, removes, original, t);
    HistoryGrows(f0, h, from, g'.temps, moves, removes, fs.files);
    return true, moved', g';
  }

  /** The first loop: old files move to temporary paths. */
  method ShelveOlds(fs: FileSystem, moves: seq<Move>, removes: seq<Path>)
    returns (ok: bool, moved: seq<Moved>, ghost g: Progress)
    requires Acceptable(fs, fs.files, moves, removes)
    modifies fs
    ensures Acceptable(fs, old(fs.files), moves, removes)
    ensures Stage(old(fs.files), fs.files, moves, removes, g) && g.done == map[] && g.gone == {}
    ensures ListsTemps(moved, g.temps)
    ensures ok ==> forall o :: o in Olds(moves, removes) && o in old(fs.files) ==> o in g.temps
    ensures old(fs.failures) <= fs.failures
    ensures ok <==> && fs.failures == old(fs.failures)
                    && forall o :: o in Olds(moves, removes) ==> NotDirectory(old(fs.files), o)
    ensures old(fs.history) <= fs.history
    ensures HistoryConserved(old(fs.files), fs.history, |old(fs.history)|, g.temps, moves, removes)
  {
    hide ProgressOk, Shelved, Shows, Stage, AllConserved, UniqueInodes, Distinct, Originals, Sources, Olds;
    ghost var f0, from := fs.files, |fs.history|;
    g := Progress(map[], map[], map[], {});
    moved := [];
    var all := Originals(moves, removes);
    OriginalsAreOlds(moves, removes);
    SourcesAreNotOld(moves, removes);
    StageStart(f0, moves, removes);
    for n := 0 to |all|
      invariant Acceptable(fs, f0, moves, removes)
      invariant Stage(f0, fs.files, moves, removes, g) && g.done == map[] && g.gone == {}
      invariant ListsTemps(moved, g.temps)
      invariant forall i :: 0 <= i < n && all[i] in f0 ==> all[i] in g.temps
      invariant forall i :: n <= i < |all| ==> all[i] !in g.temps
      invariant fs.failures == old(fs.failures) && forall i :: 0 <= i < n ==> NotDirectory(f0, all[i])
      invariant old(fs.history) <= fs.history
      invariant HistoryConserved(f0, fs.history, from, g.temps, moves, removes)
    {
      var original := all[n];
      Untouched(f0, fs.files, moves, removes, g, original);
      var known, status := fs.Status(original);
      if !known || (status.Some? && status.value.Directory?) {
        return false, moved, g;
      }
      if status.Some? {
        var done;
        done, moved, g := ShelveOne(fs, moves, removes, original, moved, f0, g, from);
        if !done {
          return false, moved, g;
        }
      }
    }
    return true, moved, g;
  }

  /** Destinations done are those of the first `n` moves, each with its own source. */
  ghost predicate DoneUpTo(moves: seq<Move>, g: Progress, n: int) {
    && g.done.Keys <= Targets(moves)
    && forall i :: 0 <= i < |moves| ==>
      && (moves[i].dst in g.done <==> i < n)
      && (moves[i].src in g.gone <==> i < n)
      && (i < n ==> g.done[moves[i].dst] == moves[i].src)
  }

  /** The second loop: new files move to their destinations. */
  method CommitNews(fs: FileSystem, moves: seq<Move>, removes: seq<Path>, ghost f0: Files, ghost g: Progress,
      ghost from: nat)
    returns (ok: bool, committed: set<Path>, ghost g': Progress, ghost n: nat)
    requires Acceptable(fs, f0, moves, removes)
    requires Stage(f0, fs.files, moves, removes, g) && g.done == map[] && g.gone == {}
    requires forall o :: o in Olds(moves, removes) && o in f0 ==> o in g.temps
    requires from <= |fs.history| && HistoryConserved(f0, fs.history, from, g.temps, moves, removes)
    modifies fs
    ensures Acceptable(fs, f0, moves, removes)
    ensures Stage(f0, fs.files, moves, removes, g') && g'.temps == g.temps && g'.back == g.back
    ensures n <= |moves| && DoneUpTo(moves, g', n) && committed == g'.done.Keys
    ensures ok ==> n == |moves|
    ensures old(fs.failures) <= fs.failures
    ensures ok <==> fs.failures == old(fs.failures) && forall m :: m in moves ==> m.src in f0
    ensures old(fs.history) <= fs.history
    ensures HistoryConserved(f0, fs.history, from, g.temps, moves, removes)
  {
    hide ProgressOk, Shelved, Shows, Stage, AllConserved, HistoryConserved, UniqueInodes, Sources, Olds;
    SourcesAreNotOld(moves, removes);
    committed, g' := {}, g;
    for i := 0 to |moves|
      invariant Acceptable(fs, f0, moves, removes)
      invariant Stage(f0, fs.files, moves, removes, g') && g'.temps == g.temps && g'.back == g.back
      invariant DoneUpTo(moves, g', i) && committed == g'.done.Keys
      invariant fs.failures == old(fs.failures) && forall j :: 0 <= j < i ==> moves[j].src in f0
      invariant old(fs.history) <= fs.history
      invariant HistoryConserved(f0, fs.history, from, g.temps, moves, removes)
    {
      var m := moves[i];
      MoveIsListed(moves, removes, m);
      SourceIsFile(f0, fs.files, moves, removes, g', m);
      ReadyForMove(f0, fs.files, moves, removes, g', m);
      ghost var f, h := fs.files, fs.history;
      var renamed := fs.Rename(m.src, m.dst, false);
      if !renamed {
        return false, committed, g', i;
      }
      CommitStep(f0, f, moves, removes, g', m);
      g' := g'.(done := g'.done[m.dst := m.src], gone := g'.gone + {m.src});
      committed := committed + {m.dst};
      StageConservedNow(f0, fs.files, moves, removes, g');
      HistoryGrows(f0, h, from, g.temps, moves, removes, fs.files);
    }
    return true, committed, g', |moves|;
  }

  /** A source is there if it was in the beginning, and its destination is free. */
  lemma ReadyForMove(f0: Files, f: Files, moves: seq<Move>, removes: seq<Path>, g: Progress, m: Move)
    requires Sources(moves) !! Olds(moves, removes) && Stage(f0, f, moves, removes, g)
    requires m.src in Sources(moves) && m.dst in Olds(moves, removes)
    requires m.dst !in g.done && m.src !in g.gone && (m.dst in f0 ==> m.dst in g.temps)
    ensures m.src in f <==> m.src in f0
    ensures m.dst !in f
  {
    assert Lookup(f, m.src) == At(f0, g, m.src) && Lookup(f, m.dst) == At(f0, g, m.dst);
  }

  lemma SourceIsFile(f0: Files, f: Files, moves: seq<Move>, removes: seq<Path>, g: Progress, m: Move)
    requires Sources(moves) !! Olds(moves, removes) && Stage(f0, f, moves, removes, g)
    requires m.src in Sources(moves) && NotDirectory(f0, m.src)
    ensures NotDirectory(f, m.src)
    ensures m.dst in g.done && g.done[m.dst] == m.src ==> m.dst in f && NotDirectory(f, m.dst)
  {
    assert Lookup(f, m.src) == At(f0, g, m.src) && Lookup(f, m.dst) == At(f0, g, m.dst);
  }

  /** The first `i` of the new files are removed, of which the first `n` had been moved. */
  ghost predicate DroppedUpTo(moves: seq<Move>, g: Progress, i: int, n: int) {
    && g.done.Keys <= Targets(moves)
    && forall j :: 0 <= j < |moves| ==>
        && (moves[j].dst in g.done <==> i <= j < n)
        && (moves[j].src in g.gone <==> j < i || j < n)
        && (moves[j].dst in g.done ==> g.done[moves[j].dst] == moves[j].src)
  }

  /** Distinct moves have distinct paths on either side. */
  lemma DropOne(moves: seq<Move>, removes: seq<Path>, g: Progress, i: int, n: int)
    requires Distinct(moves, removes) && 0 <= i < |moves| && DroppedUpTo(moves, g, i, n)
    ensures i < n ==> DroppedUpTo(moves, g.(done := g.done - {moves[i].dst}), i + 1, n)
    ensures i >= n ==> DroppedUpTo(moves, g.(gone := g.gone + {moves[i].src}), i + 1, n)
  {
  }

  /** The guard, first half: new files are removed, wherever they are by now. */
  method DropNews(fs: FileSystem, moves: seq<Move>, removes: seq<Path>, committed: set<Path>,
                  ghost f0: Files, ghost g0: Progress, ghost n: nat, ghost from: nat)
    returns (ghost g: Progress)
    requires Acceptable(fs, f0, moves, removes)
    requires Stage(f0, fs.files, moves, removes, g0) && n <= |moves| && DoneUpTo(moves, g0, n)
    requires committed == g0.done.Keys
    requires from <= |fs.history| && HistoryConserved(f0, fs.history, from, g0.temps, moves, removes)
    modifies fs
    ensures Acceptable(fs, f0, moves, removes)
    ensures Stage(f0, fs.files, moves, removes, g) && g.temps == g0.temps && g.done == map[]
    ensures fs.failures == old(fs.failures)
    ensures forall m :: m in moves ==> m.src in g.gone
    ensures old(fs.history) <= fs.history
    ensures HistoryConserved(f0, fs.history, from, g0.temps, moves, removes)
  {
    hide ProgressOk, Shelved, Shows, Stage, AllConserved, HistoryConserved, UniqueInodes, Sources, Olds;
    hide Spared, Distinct;
    SourcesAreNotOld(moves, removes);
    g := g0;
    for i := 0 to |moves|
      invariant Acceptable(fs, f0, moves, removes)
      invariant Stage(f0, fs.files, moves, removes, g) && g.temps == g0.temps
      invariant DroppedUpTo(moves, g, i, n) && fs.failures == old(fs.failures)
      invariant old(fs.history) <= fs.history
      invariant HistoryConserved(f0, fs.history, from, g0.temps, moves, removes)
    {
      var m := moves[i];
      MoveIsListed(moves, removes, m);
      SourceIsFile(f0, fs.files, moves, removes, g, m);
      DropOne(moves, removes, g, i, n);
      ghost var f, h := fs.files, fs.history;
      if m.dst in committed {
        fs.Unlink(m.dst);
        UncommitStep(f0, f, moves, removes, g, m.dst);
        g := g.(done := g.done - {m.dst});
      } else {
        fs.Unlink(m.src);
        DropSourceStep(f0, f, moves, removes, g, m.src);
        g := g.(gone := g.gone + {m.src});
      }
      StageConservedNow(f0, fs.files, moves, removes, g);
      HistoryGrows(f0, h, from, g0.temps, moves, removes, fs.files);
    }
    assert g.done.Keys == {};
  }

  lemma TempsAreNew(f0: Files, f: Files, moves: seq<Move>, removes: seq<Path>, g: Progress)
    requires Stage(f0, f, moves, removes, g)
    ensures forall o :: o in g.temps ==> g.temps[o] !in f0 && o in f0 && f0[o].File?
  {
  }

  lemma AllUndone(f0: Files, f: Files, moves: seq<Move>, removes: seq<Path>, g: Progress)
    requires Stage(f0, f, moves, removes, g) && g.done == map[] && g.temps == map[]
    requires forall m :: m in moves ==> m.src in g.gone
    ensures Abandoned(f0, f, moves)
  {
    assert forall p :: Lookup(f, p) == At(f0, g, p);
    assert forall m :: m in moves ==> Lookup(f, m.src) == None;
    assert g.back == map[];
  }

  /** The guard, second half: old files move back. */
  method RestoreOlds(fs: FileSystem, moves: seq<Move>, removes: seq<Path>, moved: seq<Moved>,
                     ghost f0: Files, ghost g0: Progress, ghost from: nat)
    requires Acceptable(fs, f0, moves, removes)
    requires Stage(f0, fs.files, moves, removes, g0) && g0.done == map[] && ListsTemps(moved, g0.temps)
    requires forall m :: m in moves ==> m.src in g0.gone
    requires from <= |fs.history| && HistoryConserved(f0, fs.history, from, g0.temps, moves, removes)
    modifies fs
    ensures fs.Valid() && Abandoned(f0, fs.files, moves) && fs.failures == old(fs.failures)
    ensures old(fs.history) <= fs.history
    ensures HistoryConserved(f0, fs.history, from, g0.temps, moves, removes)
  {
    hide ProgressOk, Shelved, Shows, Stage, AllConserved, HistoryConserved, UniqueInodes, Sources, Olds, Abandoned;
    SourcesAreNotOld(moves, removes);
    TempsAreNew(f0, fs.files, moves, removes, g0);
    ghost var g := g0;
    for i := 0 to |moved|
      invariant Acceptable(fs, f0, moves, removes)
      invariant Stage(f0, fs.files, moves, removes, g) && g.done == map[] && g.gone == g0.gone
      invariant ListsTemps(moved[i..], g.temps) && fs.failures == old(fs.failures)
      invariant forall o :: o in g.temps ==> o in g0.temps && g0.temps[o] == g.temps[o]
      invariant old(fs.history) <= fs.history
      invariant HistoryConserved(f0, fs.history, from, g0.temps, moves, removes)
    {
      var original, temp := moved[i].original, moved[i].temp;
      ListsOneLess(moved[i..], g.temps);
      assert moved[i..][1..] == moved[i + 1..];
      RestoreStep(f0, fs.files, moves, removes, g, original);
      ghost var h := fs.history;
      var ok := fs.Rename(temp, original, true);
      g := g.(temps := g.temps - {original}, back := g.back - {temp});
      StageConserved(f0, fs.files, moves, removes, g, g0.temps);
      HistoryGrows(f0, h, from, g0.temps, moves, removes, fs.files);
    }
    AllUndone(f0, fs.files, moves, removes, g);
  }

  lemma ListsOneLess(moved: seq<Moved>, temps: map<Path, Path>)
    requires ListsTemps(moved, temps) && moved != []
    ensures moved[0].original in temps && temps[moved[0].original] == moved[0].temp
    ensures ListsTemps(moved[1..], temps - {moved[0].original})
  {
    forall o | o in temps - {moved[0].original} ensures Moved(o, temps[o]) in moved[1..] {
      assert Moved(o, temps[o]) in moved;
    }
  }

  /** The guard: what undoes everything when a call has failed. */
  method Abandon(fs: FileSystem, moves: seq<Move>, removes: seq<Path>, moved: seq<Moved>, committed: set<Path>,
                 ghost f0: Files, ghost g0: Progress, ghost n: nat, ghost from: nat)
    requires Acceptable(fs, f0, moves, removes)
    requires Stage(f0, fs.files, moves, removes, g0) && n <= |moves| && DoneUpTo(moves, g0, n)
    requires committed == g0.done.Keys && ListsTemps(moved, g0.temps)
    requires from <= |fs.history| && HistoryConserved(f0, fs.history, from, g0.temps, moves, removes)
    modifies fs
    ensures fs.Valid() && Abandoned(f0, fs.files, moves) && fs.failures == old(fs.failures)
    ensures old(fs.history) <= fs.history
    ensures HistoryConserved(f0, fs.history, from, g0.temps, moves, removes)
  {
    hide *;
    ghost var g := DropNews(fs, moves, removes, committed, f0, g0, n, from);
    RestoreOlds(fs, moves, removes, moved, f0, g, from);
  }

  lemma AllCommitted(f0: Files, f: Files, moves: seq<Move>, removes: seq<Path>, g: Progress)
    requires Distinct(moves, removes) && ProgressOk(f0, moves, removes, g) && Shows(f0, f, g) && g.back == map[]
    requires DoneUpTo(moves, g, |moves|)
    requires forall o :: o in Olds(moves, removes) && o in f0 ==> o in g.temps
    ensures Committed(f0, f, moves, removes)
  {
    forall m | m in moves ensures m.src in f0 && Lookup(f, m.dst) == Some(f0[m.src]) && m.src !in f {
      assert Lookup(f, m.dst) == At(f0, g, m.dst);
      assert Lookup(f, m.src) == At(f0, g, m.src);
    }
    forall p | p in removes ensures p !in f {
      assert Lookup(f, p) == At(f0, g, p);
    }
    forall p | p !in Listed(moves, removes) ensures Lookup(f, p) == Lookup(f0, p) {
      assert Lookup(f, p) == At(f0, g, p);
    }
  }

  lemma DropTempStep(f0: Files, f: Files, moves: seq<Move>, removes: seq<Path>, g: Progress, o: Path)
    requires Sources(moves) !! Olds(moves, removes) && ProgressOk(f0, moves, removes, g) && Shows(f0, f, g)
      && o in g.temps
    ensures Shows(f0, f - {g.temps[o]}, g.(back := g.back - {g.temps[o]}))
    ensures ProgressOk(f0, moves, removes, g.(back := g.back - {g.temps[o]}))
    ensures NotDirectory(f, g.temps[o])
  {
    hide Sources, Olds;
    var t := g.temps[o];
    var f', g' := f - {t}, g.(back := g.back - {t});
    assert Lookup(f, t) == At(f0, g, t);
    assert t !in g.done && t !in g.gone && t !in f0;
    forall p ensures Lookup(f', p) == At(f0, g', p) {
      assert Lookup(f, p) == At(f0, g, p);
    }
  }

  /** The last loop: the old files are removed for good. */
  method DropOlds(fs: FileSystem, moves: seq<Move>, removes: seq<Path>, moved: seq<Moved>, ghost f0: Files,
      ghost g0: Progress)
    requires Acceptable(fs, f0, moves, removes)
    requires Stage(f0, fs.files, moves, removes, g0) && DoneUpTo(moves, g0, |moves|) && ListsTemps(moved, g0.temps)
    requires forall o :: o in Olds(moves, removes) && o in f0 ==> o in g0.temps
    modifies fs
    ensures fs.Valid() && Committed(f0, fs.files, moves, removes) && fs.failures == old(fs.failures)
    ensures old(fs.history) <= fs.history
  {
    hide ProgressOk, Shows, UniqueInodes, Sources, Olds, Committed;
    SourcesAreNotOld(moves, removes);
    ghost var g := g0;
    for i := 0 to |moved|
      invariant Acceptable(fs, f0, moves, removes)
      invariant ProgressOk(f0, moves, removes, g) && Shows(f0, fs.files, g) && DoneUpTo(moves, g, |moves|)
      invariant fs.failures == old(fs.failures)
      invariant g.temps == g0.temps
      invariant forall t :: t in g.back ==> t in g0.back && forall j :: 0 <= j < i ==> moved[j].temp != t
      invariant old(fs.history) <= fs.history
    {
      DropTempStep(f0, fs.files, moves, removes, g, moved[i].original);
      fs.Unlink(moved[i].temp);
      g := g.(back := g.back - {moved[i].temp});
    }
    BackIsListed(f0, moves, removes, g, moved);
    AllCommitted(f0, fs.files, moves, removes, g);
  }

  lemma BackIsListed(f0: Files, moves: seq<Move>, removes: seq<Path>, g: Progress, moved: seq<Moved>)
    requires ProgressOk(f0, moves, removes, g) && ListsTemps(moved, g.temps)
    requires forall t :: t in g.back ==> forall j :: 0 <= j < |moved| ==> moved[j].temp != t
    ensures g.back == map[]
  {
    assert forall t :: t in g.back ==> Moved(g.back[t], t) in moved;
  }

  /** Either everything happens or nothing does; everything happens exactly if no call fails, every
      source exists and no directory is in the way. Until the commit point no old file is lost: in
      every state up to there each is at exactly one of its two paths. `commit` is the length of the
      history at that point. */
  method MoveAllOrAbandon(fs: FileSystem, moves: seq<Move>, removes: seq<Path>)
    returns (ok: bool, ghost temps: map<Path, Path>, ghost commit: nat)
    requires fs.Valid() && Distinct(moves, removes)
    requires Spared(fs, fs.files, moves, removes)
    requires forall m :: m in moves ==> NotDirectory(fs.files, m.src)
    modifies fs
    ensures fs.Valid()
    ensures ok ==> Committed(old(fs.files), fs.files, moves, removes)
    ensures !ok ==> Abandoned(old(fs.files), fs.files, moves)
    ensures old(fs.failures) <= fs.failures
    ensures ok <==> fs.failures == old(fs.failures) && Movable(old(fs.files), moves, removes)
    ensures old(fs.history) <= fs.history && |old(fs.history)| <= commit <= |fs.history|
    ensures !ok ==> commit == |fs.history|
    ensures HistoryConserved(old(fs.files), fs.history[..commit], |old(fs.history)|, temps, moves, removes)
  {
    hide Stage, AllConserved, HistoryConserved, UniqueInodes, Distinct, Sources, Olds, Committed, Abandoned;
    hide ListsTemps, Targets, Spared;
    ghost var f0, from := fs.files, |fs.history|;
    ghost var g, n;
    var moved, committed;
    ok, moved, g := ShelveOlds(fs, moves, removes);
    temps := g.temps;
    if !ok {
      Abandon(fs, moves, removes, moved, {}, f0, g, 0, from);
      commit := |fs.history|;
      assert fs.history[..commit] == fs.history;
      return;
    }
    ok, committed, g, n := CommitNews(fs, moves, removes, f0, g, from);
    if !ok {
      Abandon(fs, moves, removes, moved, committed, f0, g, n, from);
      commit := |fs.history|;
      assert fs.history[..commit] == fs.history;
      return;
    }
    commit := |fs.history|;
    ghost var h := fs.history;
    DropOlds(fs, moves, removes, moved, f0, g);
    assert fs.history[..commit] == h;
  }
}
