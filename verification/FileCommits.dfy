/** `MoveAllOrAbandon`: replaces and removes many files, all or none. */
module FileCommits {
  import opened Options
  import opened FileSystems

  /** A file to move: from `src` to `dst`. */
  datatype Move = Move(src: Path, dst: Path)

  // --- What is asked ------------------------------------------------------------------------

  function Sources(moves: seq<Move>): set<Path> { set m | m in moves :: m.src }

  function Targets(moves: seq<Move>): set<Path> { set m | m in moves :: m.dst }

  /** The paths whose old files have to go, in the order they are handled. */
  function Originals(moves: seq<Move>, removes: seq<Path>): seq<Path> {
    seq(|moves|, i requires 0 <= i < |moves| => moves[i].dst) + removes
  }

  /** No path occurs twice. */
  ghost predicate Distinct(moves: seq<Move>, removes: seq<Path>) {
    && (forall i, j :: 0 <= i < j < |moves| ==> moves[i].src != moves[j].src && moves[i].dst != moves[j].dst)
    && (forall i, j :: 0 <= i < |moves| && 0 <= j < |moves| ==> moves[i].src != moves[j].dst)
    && (forall i, j :: 0 <= i < j < |removes| ==> removes[i] != removes[j])
    && (forall i, p :: 0 <= i < |moves| && p in removes ==> moves[i].src != p && moves[i].dst != p)
  }

  /** The paths whose old files have to go. */
  function Olds(moves: seq<Move>, removes: seq<Path>): set<Path> {
    Targets(moves) + set p | p in removes
  }

  function Listed(moves: seq<Move>, removes: seq<Path>): set<Path> {
    Sources(moves) + Olds(moves, removes)
  }

  lemma SourcesAreNotOld(moves: seq<Move>, removes: seq<Path>)
    requires Distinct(moves, removes)
    ensures Sources(moves) !! Olds(moves, removes)
  {
  }

  lemma MoveIsListed(moves: seq<Move>, removes: seq<Path>, m: Move)
    requires m in moves
    ensures m.src in Sources(moves) && m.dst in Olds(moves, removes)
  {
  }

  // --- The two outcomes -----------------------------------------------------------------------

  /** Every destination holds what was to be moved there, and everything to be removed is gone. */
  ghost predicate Committed(f0: Files, f: Files, moves: seq<Move>, removes: seq<Path>) {
    && (forall m :: m in moves ==> m.src in f0 && Lookup(f, m.dst) == Some(f0[m.src]) && m.src !in f)
    && (forall p :: p in removes ==> p !in f)
    && (forall p :: p !in Listed(moves, removes) ==> Lookup(f, p) == Lookup(f0, p))
  }

  /** The files to be moved are gone; everything else is as it was. */
  ghost predicate Abandoned(f0: Files, f: Files, moves: seq<Move>) {
    && (forall m :: m in moves ==> m.src !in f)
    && (forall p :: p !in Sources(moves) ==> Lookup(f, p) == Lookup(f0, p))
  }

  /** What the files have to be like for everything to happen: there is something to move, and
      directories are not in the way. */
  ghost predicate Movable(f0: Files, moves: seq<Move>, removes: seq<Path>) {
    && (forall m :: m in moves ==> m.src in f0)
    && (forall o :: o in Olds(moves, removes) ==> NotDirectory(f0, o))
  }

  // --- The states in between ------------------------------------------------------------------

  /** How far things have got: `temps` takes an old file's path to the temporary path it was moved
      to and `back` the other way; `done` takes a destination to the path its new file came
      from; `gone` are the sources that are no longer there. */
  datatype Progress = Progress(temps: map<Path, Path>, back: map<Path, Path>, done: map<Path, Path>, gone: set<Path>)

  function At(f0: Files, g: Progress, p: Path): Option<Entry> {
    if p in g.done then Lookup(f0, g.done[p])
    else if p in g.gone || p in g.temps then None
    else if p in g.back then Lookup(f0, g.back[p])
    else Lookup(f0, p)
  }

  ghost predicate Shows(f0: Files, f: Files, g: Progress) {
    forall p :: Lookup(f, p) == At(f0, g, p)
  }

  /** What ties the progress to the request. */
  ghost predicate ProgressOk(f0: Files, moves: seq<Move>, removes: seq<Path>, g: Progress) {
    && (forall o :: o in g.temps ==>
          && o in Olds(moves, removes) && o in f0 && f0[o].File?
          && g.temps[o] !in f0 && g.temps[o] !in Listed(moves, removes))
    && (forall t :: t in g.back ==> g.back[t] in g.temps && g.temps[g.back[t]] == t)
    && (forall d :: d in g.done ==>
          && d in Olds(moves, removes) && g.done[d] in Sources(moves) && g.done[d] in f0 && g.done[d] in g.gone
          && (d in f0 ==> d in g.temps))
    && g.gone <= Sources(moves)
  }

  /** All temporary files are still there. */
  ghost predicate Shelved(g: Progress) {
    forall o :: o in g.temps ==> g.temps[o] in g.back && g.back[g.temps[o]] == o
  }

  /** Every old file is at exactly one of its original and its temporary path. */
  ghost predicate Conserved(f0: Files, f: Files, temps: map<Path, Path>, o: Path)
    requires o in f0
  {
    (Lookup(f, o) == Some(f0[o])) != (o in temps && Lookup(f, temps[o]) == Some(f0[o]))
  }

  ghost predicate AllConserved(f0: Files, f: Files, temps: map<Path, Path>, moves: seq<Move>, removes: seq<Path>) {
    && UniqueInodes(f)
    && forall o :: o in f0 && o in Olds(moves, removes) ==> Conserved(f0, f, temps, o)
  }

  ghost predicate HistoryConserved(f0: Files, h: seq<Files>, from: int, temps: map<Path, Path>, moves: seq<Move>,
      removes: seq<Path>)
  {
    forall i :: 0 <= from <= i < |h| ==> AllConserved(f0, h[i], temps, moves, removes)
  }

  /** Every state that shows some progress conserves the old files. */
  lemma ShowsConserved(f0: Files, f: Files, g: Progress, temps: map<Path, Path>, moves: seq<Move>,
      removes: seq<Path>, o: Path)
    requires UniqueInodes(f0) && UniqueInodes(f) && Sources(moves) !! Olds(moves, removes)
    requires Shows(f0, f, g) && ProgressOk(f0, moves, removes, g) && Shelved(g)
    requires forall p :: p in g.temps ==> p in temps && temps[p] == g.temps[p]
    requires forall p :: p in temps ==> temps[p] !in f0
    requires o in f0 && o in Olds(moves, removes)
    ensures Conserved(f0, f, temps, o)
  {
    assert Lookup(f, o) == At(f0, g, o);
    assert o !in g.gone && o !in g.back;
    if o in g.temps {
      var t := temps[o];
      assert Lookup(f, t) == At(f0, g, t);
      assert t !in g.done && t !in g.gone && t !in g.temps;
      assert o in g.done ==> g.done[o] != o;
    } else {
      assert o !in g.done;
    }
  }

  /** Creating a file disturbs nothing. */
  lemma CreatedConserved(f0: Files, f: Files, temps: map<Path, Path>, moves: seq<Move>, removes: seq<Path>, t: Path,
      e: Entry)
    requires AllConserved(f0, f, temps, moves, removes) && t !in f && e.inode !in Inodes(f)
    ensures AllConserved(f0, f[t := e], temps, moves, removes)
  {
    forall o | o in f0 && o in Olds(moves, removes) ensures Conserved(f0, f[t := e], temps, o) {
      assert Conserved(f0, f, temps, o);
    }
  }

  /** Nor does giving a file that has not moved yet a temporary path. */
  lemma MoreTempsConserved(f0: Files, f: Files, temps: map<Path, Path>, moves: seq<Move>, removes: seq<Path>,
      o: Path, t: Path)
    requires AllConserved(f0, f, temps, moves, removes) && o !in temps && o != t
    ensures AllConserved(f0, f, temps[o := t], moves, removes)
  {
    forall p | p in f0 && p in Olds(moves, removes) ensures Conserved(f0, f, temps[o := t], p) {
      assert Conserved(f0, f, temps, p);
    }
  }
}
