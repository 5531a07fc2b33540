/** The graph as a whole: it is exactly the successor relation of the instructions, seen from the
    blocks. */
module FlowGraphs {
  import opened Options
  import opened Bytecode
  import opened BasicBlocks
  import opened FlowEdges

  /** An edge from one instruction to another, between their blocks. */
  function EdgeBetween(code: Code, i: int, j: int): Edge
    requires 0 <= i < |code| && 0 <= j < |code|
  {
    Edge(BlockOf(code, i), Some(code[i].pc), BlockOf(code, j), code[j].pc)
  }

  /** Control falls from the end of one block into the next. */
  ghost predicate IsFallThrough(code: Code, e: Edge) {
    exists i :: 0 <= i < |code| - 1 && Falls(code[i]) && StartsBlock(code, i + 1) && e == EdgeBetween(code, i, i + 1)
  }

  ghost predicate IsJump(code: Code, e: Edge) {
    exists i, j :: 0 <= i < |code| && 0 <= j < |code| && code[j].pc in Jumps(code[i]) && e == EdgeBetween(code, i, j)
  }

  /** Some instruction of block `b` is covered by a handler at address `h`, where an instruction is. */
  ghost predicate BlockCaughtAt(code: Code, b: int, h: int) {
    exists i, j :: CaughtAt(code, i, j) && BlockOf(code, i) == b && code[j].pc == h
  }

  ghost predicate Exact(code: Code, g: Graph) {
    && (forall e :: e in g.regular <==> IsFallThrough(code, e))
    && (forall e :: e in g.taken <==> IsJump(code, e))
    && Sound(code, g.exceptions)
    && (forall b, h :: HasEdge(g.exceptions, b, h) <==> BlockCaughtAt(code, b, h))
  }

  lemma {:induction false} RegularIff(code: Code, n: int, e: Edge)
    requires 0 <= n <= |code|
    ensures e in RegularUpTo(code, n) <==>
      exists i :: 0 <= i < n - 1 && Falls(code[i]) && StartsBlock(code, i + 1) && e == EdgeBetween(code, i, i + 1)
  {
    hide BlockOf, StartsBlock;
    if n > 1 {
      RegularIff(code, n - 1, e);
      assert RegularEdge(code, n - 1) == EdgeBetween(code, n - 2, n - 2 + 1);
    }
  }

  lemma {:induction false} TargetListIff(code: Code, i: int, targets: seq<int>, e: Edge)
    requires 0 <= i < |code|
    ensures e in TakenFrom(code, i, targets) <==> exists t :: t in targets && e in TakenEdges(code, i, t)
    decreases |targets|
  {
    hide TakenEdges;
    if targets != [] {
      var last := |targets| - 1;
      TargetListIff(code, i, targets[..last], e);
      assert targets == targets[..last] + [targets[last]];
    }
  }

  /** The edges of one jump: a target counts exactly when there is an instruction. */
  lemma TakenFromIff(code: Code, i: int, e: Edge)
    requires WellFormed(code) && 0 <= i < |code|
    ensures e in TakenFrom(code, i, TargetList(code[i])) <==>
      exists j :: 0 <= j < |code| && code[j].pc in Jumps(code[i]) && e == EdgeBetween(code, i, j)
  {
    hide WellFormed, BlockOf, StartsBlock, NodesUpTo;
    TargetListIff(code, i, TargetList(code[i]), e);
    assert forall t :: t in TargetList(code[i]) <==> t in Jumps(code[i]);
    if e in TakenFrom(code, i, TargetList(code[i])) {
      MapsUpTo(code, |code|, e.toPc);
      var j :| 0 <= j < |code| && code[j].pc == e.toPc && StartsBlock(code, j);
      assert e == EdgeBetween(code, i, j);
    }
    forall j | 0 <= j < |code| && code[j].pc in Jumps(code[i]) && e == EdgeBetween(code, i, j)
      ensures e in TakenEdges(code, i, code[j].pc)
    {
      TargetStarts(code, i, j);
      NodeAt(code, j);
    }
  }

  lemma TargetStarts(code: Code, i: int, j: int)
    requires 0 <= i < |code| && 0 <= j < |code| && code[j].pc in Jumps(code[i])
    ensures StartsBlock(code, j)
  {
    TargetsContain(code, |code|, i, code[j].pc);
  }

  lemma {:induction false} TakenIff(code: Code, n: int, e: Edge)
    requires WellFormed(code) && 0 <= n <= |code|
    ensures e in TakenUpTo(code, n) <==>
      exists i, j :: 0 <= i < n && 0 <= j < |code| && code[j].pc in Jumps(code[i]) && e == EdgeBetween(code, i, j)
  {
    hide WellFormed, BlockOf, TakenFrom;
    if n > 0 {
      TakenIff(code, n - 1, e);
      TakenFromIff(code, n - 1, e);
    }
  }

  lemma ExceptionsIff(code: Code, exceptions: set<Edge>, b: int, h: int)
    requires WellFormed(code) && Sound(code, exceptions) && CompleteUpTo(code, |code|, {}, exceptions)
    ensures HasEdge(exceptions, b, h) <==> BlockCaughtAt(code, b, h)
  {
    hide WellFormed, BlockOf, StartOf;
    if BlockCaughtAt(code, b, h) {
      var i, j :| CaughtAt(code, i, j) && BlockOf(code, i) == b && code[j].pc == h;
      NodeAt(code, j);
      assert code[StartOf(code, i)].pc !in {};
    }
  }

  /** `DumpMethodCFG`, up to the text it writes. */
  method BuildGraph(code: Code) returns (g: Graph)
    requires WellFormed(code)
    ensures Exact(code, g)
  {
    var targets := CollectTargets(code);
    var nodeId, inclId := SplitBlocks(code, targets);
    var regular, taken, exceptions, detailed := FirstPass(code, nodeId, inclId);
    exceptions := SecondPass(code, nodeId, inclId, detailed, exceptions);
    g := Graph(regular, taken, exceptions);
    hide WellFormed, RegularUpTo, TakenUpTo, Sound, CompleteUpTo, HasEdge, BlockCaughtAt;
    forall e ensures e in regular <==> IsFallThrough(code, e) {
      RegularIff(code, |code|, e);
    }
    forall e ensures e in taken <==> IsJump(code, e) {
      TakenIff(code, |code|, e);
    }
    forall b, h ensures HasEdge(exceptions, b, h) <==> BlockCaughtAt(code, b, h) {
      ExceptionsIff(code, exceptions, b, h);
    }
  }

  // --- Kind by kind ---------------------------------------------------------------------------------

  /** The instruction names the address as a target. */
  predicate Names(inst: Inst, pc: int) {
    match inst.kind
    case Branch(target, _) => pc == target
    case Switch(targets) => exists n :: 0 <= n < |targets| && targets[n] == pc
    case Plain => false
    case Return => false
    case Throw => false
  }

  lemma NamesIsJumps(inst: Inst, pc: int)
    ensures Names(inst, pc) <==> pc in Jumps(inst)
  {
  }

  /** A block starts at the first instruction, at every address a jump names, and after every branch,
      switch, return and throw; nowhere else. */
  lemma StartsByKind(code: Code, j: int)
    requires 0 <= j < |code|
    ensures StartsBlock(code, j) <==>
      || j == 0
      || (exists i :: 0 <= i < |code| && Names(code[i], code[j].pc))
      || match code[j - 1].kind
         case Branch(_, _) => true
         case Switch(_) => true
         case Return => true
         case Throw => true
         case Plain => false
  {
    TargetsByKind(code, |code|, code[j].pc);
  }

  lemma {:induction false} TargetsByKind(code: Code, n: int, pc: int)
    requires 0 <= n <= |code|
    ensures pc in TargetsUpTo(code, n) <==> exists i :: 0 <= i < n && Names(code[i], pc)
    decreases n
  {
    hide Names, Jumps;
    if n > 0 {
      TargetsByKind(code, n - 1, pc);
      NamesIsJumps(code[n - 1], pc);
    }
  }

  /** No regular edge starts at a return, a throw or an unconditional branch. From any other instruction
      there is one exactly if there is a next instruction and it starts a block; it leads there. */
  lemma RegularByKind(code: Code, g: Graph, i: int)
    requires WellFormed(code) && Exact(code, g) && 0 <= i < |code|
    ensures (exists e :: e in g.regular && e.fromPc == Some(code[i].pc)) <==>
      match code[i].kind
      case Return => false
      case Throw => false
      case Branch(_, unconditional) => !unconditional && i + 1 < |code| && StartsBlock(code, i + 1)
      case Switch(_) => i + 1 < |code| && StartsBlock(code, i + 1)
      case Plain => i + 1 < |code| && StartsBlock(code, i + 1)
    ensures forall e :: e in g.regular && e.fromPc == Some(code[i].pc) ==>
      i + 1 < |code| && e == EdgeBetween(code, i, i + 1)
  {
    hide StartsBlock, BlockOf, Sound, HasEdge, BlockCaughtAt, IsJump;
    forall e | e in g.regular && e.fromPc == Some(code[i].pc)
      ensures i + 1 < |code| && Falls(code[i]) && StartsBlock(code, i + 1) && e == EdgeBetween(code, i, i + 1)
    {
      var n :| 0 <= n < |code| - 1 && Falls(code[n]) && StartsBlock(code, n + 1) && e == EdgeBetween(code, n, n + 1);
      SamePc(code, n, i);
    }
    if i + 1 < |code| && Falls(code[i]) && StartsBlock(code, i + 1) {
      assert IsFallThrough(code, EdgeBetween(code, i, i + 1));
      assert EdgeBetween(code, i, i + 1) in g.regular;
    }
  }

  lemma SamePc(code: Code, i: int, j: int)
    requires WellFormed(code) && 0 <= i < |code| && 0 <= j < |code| && code[i].pc == code[j].pc
    ensures i == j
  {
    if i < j {
      Increasing(code, i, j);
    } else if j < i {
      Increasing(code, j, i);
    }
  }

  /** From one instruction to another there is a taken edge exactly if the first is a branch or a switch
      that names the address of the second, and there are no others. */
  lemma TakenByKind(code: Code, g: Graph, i: int, j: int)
    requires WellFormed(code) && Exact(code, g) && 0 <= i < |code| && 0 <= j < |code|
    ensures EdgeBetween(code, i, j) in g.taken <==> Names(code[i], code[j].pc)
    ensures forall e :: e in g.taken && e.fromPc == Some(code[i].pc) && e.toPc == code[j].pc ==>
      e == EdgeBetween(code, i, j)
    ensures forall e :: e in g.taken ==>
      exists m, n :: 0 <= m < |code| && 0 <= n < |code| && e == EdgeBetween(code, m, n) && Names(code[m], code[n].pc)
  {
    hide BlockOf, Sound, HasEdge, BlockCaughtAt, IsFallThrough, Names, Jumps;
    forall e | e in g.taken
      ensures exists m, n ::
        0 <= m < |code| && 0 <= n < |code| && e == EdgeBetween(code, m, n) && Names(code[m], code[n].pc)
      ensures e.fromPc == Some(code[i].pc) && e.toPc == code[j].pc ==>
        e == EdgeBetween(code, i, j) && Names(code[i], code[j].pc)
    {
      assert IsJump(code, e);
      var m, n :| 0 <= m < |code| && 0 <= n < |code| && code[n].pc in Jumps(code[m]) && e == EdgeBetween(code, m, n);
      NamesIsJumps(code[m], code[n].pc);
      if e.fromPc == Some(code[i].pc) && e.toPc == code[j].pc {
        SamePc(code, m, i);
        SamePc(code, n, j);
      }
    }
    NamesIsJumps(code[i], code[j].pc);
    if Names(code[i], code[j].pc) {
      assert IsJump(code, EdgeBetween(code, i, j));
    }
  }

  // --- The graph and the instructions --------------------------------------------------------------

  /** Every step of control either stays inside a block or is an edge. */
  lemma StepIsEdge(code: Code, g: Graph, i: int, j: int)
    requires WellFormed(code) && Exact(code, g) && Successor(code, i, j)
    ensures (j == i + 1 && !StartsBlock(code, j) && BlockOf(code, i) == BlockOf(code, j))
         || EdgeBetween(code, i, j) in g.regular + g.taken
  {
    BlocksAreBasic(code, i, j);
    hide WellFormed, BlockOf;
    if code[j].pc in Jumps(code[i]) {
      assert IsJump(code, EdgeBetween(code, i, j));
    } else if StartsBlock(code, j) {
      assert IsFallThrough(code, EdgeBetween(code, i, j));
    }
  }

  /** Every edge is a step of control, from the last instruction of its block to the first of another. */
  lemma EdgeIsStep(code: Code, g: Graph, e: Edge)
    requires WellFormed(code) && Exact(code, g) && e in g.regular + g.taken
    ensures exists i, j ::
      && Successor(code, i, j) && e == EdgeBetween(code, i, j)
      && StartsBlock(code, j) && (i + 1 == |code| || StartsBlock(code, i + 1))
  {
    hide WellFormed, BlockOf;
    if e in g.taken {
      var i, j :| 0 <= i < |code| && 0 <= j < |code| && code[j].pc in Jumps(code[i]) && e == EdgeBetween(code, i, j);
      assert Successor(code, i, j);
      TargetStarts(code, i, j);
      BlocksAreBasic(code, i, j);
    } else {
      var i :| 0 <= i < |code| - 1 && Falls(code[i]) && StartsBlock(code, i + 1) && e == EdgeBetween(code, i, i + 1);
      assert Successor(code, i, i + 1);
    }
  }

  /** A run of the method without exceptions, from some instruction on. */
  ghost predicate IsRun(code: Code, run: seq<int>) {
    && run != [] && 0 <= run[0] < |code|
    && forall k :: 0 < k < |run| ==> Successor(code, run[k - 1], run[k])
  }

  function Last(run: seq<int>): int
    requires run != []
  {
    run[|run| - 1]
  }

  lemma InRange(code: Code, run: seq<int>, k: int)
    requires IsRun(code, run) && 0 <= k < |run|
    ensures 0 <= run[k] < |code|
  {
    assert k > 0 ==> Successor(code, run[k - 1], run[k]);
  }

  lemma RunPrefix(code: Code, run: seq<int>)
    requires IsRun(code, run) && |run| > 1
    ensures IsRun(code, run[..|run| - 1])
    ensures Successor(code, Last(run[..|run| - 1]), Last(run))
  {
  }

  /** The edges a run takes: one whenever it arrives at the start of a block. */
  ghost function EdgesOf(code: Code, run: seq<int>): seq<Edge>
    requires IsRun(code, run)
    decreases |run|
  {
    if |run| == 1 then []
    else
      RunPrefix(code, run);
      var before := run[..|run| - 1];
      EdgesOf(code, before) + if StartsBlock(code, Last(run)) then [EdgeBetween(code, Last(before), Last(run))] else []
  }

  /** Edges of the graph that lead from block `from` to block `to`, each starting where the one
      before it ends. */
  predicate IsWalk(g: Graph, edges: seq<Edge>, from: int, to: int)
    decreases |edges|
  {
    if edges == [] then from == to
    else
      var last := edges[|edges| - 1];
      last in g.regular + g.taken && last.to == to && IsWalk(g, edges[..|edges| - 1], from, last.from)
  }

  lemma WalkExtended(g: Graph, edges: seq<Edge>, from: int, to: int, e: Edge)
    requires IsWalk(g, edges, from, to) && e in g.regular + g.taken && e.from == to
    ensures IsWalk(g, edges + [e], from, e.to)
  {
    assert (edges + [e])[..|edges|] == edges;
  }

  /** A run through instructions is a walk through the blocks of the graph, along the edges it takes. */
  lemma {:induction false} RunIsWalk(code: Code, g: Graph, run: seq<int>)
    requires WellFormed(code) && Exact(code, g) && IsRun(code, run)
    ensures 0 <= Last(run) < |code|
    ensures IsWalk(g, EdgesOf(code, run), BlockOf(code, run[0]), BlockOf(code, Last(run)))
    decreases |run|
  {
    hide WellFormed, Exact, BlockOf, StartsBlock;
    InRange(code, run, |run| - 1);
    if |run| > 1 {
      RunPrefix(code, run);
      var before := run[..|run| - 1];
      RunIsWalk(code, g, before);
      StepIsEdge(code, g, Last(before), Last(run));
      BlocksAreBasic(code, Last(before), Last(run));
      if StartsBlock(code, Last(run)) {
        var e := EdgeBetween(code, Last(before), Last(run));
        WalkExtended(g, EdgesOf(code, before), BlockOf(code, run[0]), BlockOf(code, Last(before)), e);
      } else {
        assert EdgesOf(code, run) == EdgesOf(code, before);
      }
    }
  }

  lemma RunExtended(code: Code, run: seq<int>, j: int)
    requires IsRun(code, run) && Successor(code, Last(run), j)
    ensures IsRun(code, run + [j])
    ensures EdgesOf(code, run + [j])
         == EdgesOf(code, run) + if StartsBlock(code, j) then [EdgeBetween(code, Last(run), j)] else []
  {
    var run' := run + [j];
    assert IsRun(code, run') by {
      forall k | 0 < k < |run'| ensures Successor(code, run'[k - 1], run'[k]) {
        assert k < |run| ==> Successor(code, run[k - 1], run[k]);
      }
    }
    assert run'[..|run|] == run;
  }

  /** Control runs through a block without taking an edge. */
  lemma {:induction false} AlongBlock(code: Code, run: seq<int>, i: int) returns (run': seq<int>)
    requires WellFormed(code) && IsRun(code, run) && Last(run) <= i < |code|
    requires 0 <= Last(run) && BlockOf(code, Last(run)) == BlockOf(code, i)
    ensures IsRun(code, run') && run'[0] == run[0] && Last(run') == i && EdgesOf(code, run') == EdgesOf(code, run)
    decreases i
  {
    hide WellFormed, BlockOf, EdgesOf;
    SameBlockIff(code, Last(run), i);
    if Last(run) == i {
      run' := run;
    } else {
      SameBlockIff(code, Last(run), i - 1);
      var before := AlongBlock(code, run, i - 1);
      assert !StartsBlock(code, i);
      assert Successor(code, i - 1, i);
      RunExtended(code, before, i);
      run' := before + [i];
    }
  }

  /** Conversely, every walk from one block to another is what some run does, from the first
      instruction of the one to the first instruction of the other. */
  lemma {:induction false} WalkIsRun(code: Code, g: Graph, edges: seq<Edge>, s: int, to: int) returns (run: seq<int>)
    requires WellFormed(code) && Exact(code, g) && 0 <= s < |code| && StartsBlock(code, s)
    requires IsWalk(g, edges, BlockOf(code, s), to)
    ensures IsRun(code, run) && run[0] == s && EdgesOf(code, run) == edges
    ensures 0 <= Last(run) < |code| && StartsBlock(code, Last(run)) && BlockOf(code, Last(run)) == to
    decreases |edges|
  {
    hide WellFormed, Exact, BlockOf, StartsBlock, EdgesOf;
    if edges == [] {
      run := [s];
      NoStepNoEdge(code, s);
    } else {
      var init, e := edges[..|edges| - 1], edges[|edges| - 1];
      var before := WalkIsRun(code, g, init, s, e.from);
      EdgeIsStep(code, g, e);
      var i, j :| Successor(code, i, j) && e == EdgeBetween(code, i, j) && StartsBlock(code, j)
        && (i + 1 == |code| || StartsBlock(code, i + 1));
      StartComesFirst(code, Last(before), i);
      var along := AlongBlock(code, before, i);
      RunExtended(code, along, j);
      run := along + [j];
      assert edges == init + [e];
    }
  }

  lemma NoStepNoEdge(code: Code, s: int)
    requires 0 <= s < |code|
    ensures IsRun(code, [s]) && EdgesOf(code, [s]) == []
  {
  }

  lemma StartComesFirst(code: Code, s: int, i: int)
    requires 0 <= s < |code| && 0 <= i < |code| && StartsBlock(code, s) && BlockOf(code, s) == BlockOf(code, i)
    ensures s <= i
  {
    if i < s {
      BlocksInOrder(code, i, s);
    }
  }
}
