/** `DumpMethodCFG`, second part: normal edges, and exception edges in two passes. Edges are
    collected in sets; their order and repetition in the output are not modelled. */
module FlowEdges {
  import opened Options
  import opened Bytecode
  import opened BasicBlocks
  import Sets

  /** An edge leaves a block, mostly from a given instruction, and arrives at an instruction. */
  datatype Edge = Edge(from: int, fromPc: Option<int>, to: int, toPc: int)

  // --- What the edges should be ------------------------------------------------------------------

  function RegularEdge(code: Code, i: int): Edge
    requires 0 < i < |code|
  {
    Edge(BlockOf(code, i - 1), Some(code[i - 1].pc), BlockOf(code, i), code[i].pc)
  }

  /** The fall-through edges into the first `n` instructions. */
  function RegularUpTo(code: Code, n: int): set<Edge>
    requires 0 <= n <= |code|
  {
    if n <= 1 then {}
    else
      var last := if StartsBlock(code, n - 1) && Falls(code[n - 2]) then {RegularEdge(code, n - 1)} else {};
      RegularUpTo(code, n - 1) + last
  }

  /** An edge to address `t`, if a block starts there. */
  function TakenEdges(code: Code, i: int, t: int): set<Edge>
    requires 0 <= i < |code|
  {
    var nodes := NodesUpTo(code, |code|);
    if t in nodes then {Edge(BlockOf(code, i), Some(code[i].pc), nodes[t], t)} else {}
  }

  function TakenFrom(code: Code, i: int, targets: seq<int>): set<Edge>
    requires 0 <= i < |code|
    decreases |targets|
  {
    if targets == [] then {}
    else TakenFrom(code, i, targets[..|targets| - 1]) + TakenEdges(code, i, targets[|targets| - 1])
  }

  function TargetList(inst: Inst): seq<int> {
    match inst.kind
    case Branch(target, _) => [target]
    case Switch(targets) => targets
    case _ => []
  }

  /** The jump edges of the first `n` instructions. */
  function TakenUpTo(code: Code, n: int): set<Edge>
    requires 0 <= n <= |code|
  {
    if n == 0 then {} else TakenUpTo(code, n - 1) + TakenFrom(code, n - 1, TargetList(code[n - 1]))
  }

  function HandlerSet(inst: Inst): set<int> {
    set h | h in inst.handlers
  }

  /** The handlers of instructions `s` up to but not including `n`. */
  function Covered(code: Code, s: int, n: int): set<int>
    requires 0 <= s <= n <= |code|
  {
    if n == s then {} else Covered(code, s, n - 1) + HandlerSet(code[n - 1])
  }

  lemma {:induction false} CoveredIff(code: Code, s: int, n: int, h: int)
    requires 0 <= s <= n <= |code|
    ensures h in Covered(code, s, n) <==> exists i :: s <= i < n && h in code[i].handlers
    decreases n
  {
    if s < n {
      CoveredIff(code, s, n - 1, h);
    }
  }

  /** Edges to those handlers that are instructions. */
  function HandlerEdges(code: Code, from: int, fromPc: Option<int>, handlers: set<int>): set<Edge> {
    set h | h in handlers && h in InclUpTo(code, |code|) :: Edge(from, fromPc, InclUpTo(code, |code|)[h], h)
  }

  /** An exception edge is right if some instruction of its block is covered by its handler. */
  ghost predicate Justified(code: Code, e: Edge) {
    exists i, j ::
      && CaughtAt(code, i, j)
      && e.from == BlockOf(code, i) && e.to == BlockOf(code, j) && e.toPc == code[j].pc
      && (e.fromPc.Some? ==> e.fromPc.value == code[i].pc)
  }

  ghost predicate HasEdge(edges: set<Edge>, b: int, h: int) {
    exists e :: e in edges && e.from == b && e.toPc == h
  }

  // --- Exception edges, first pass -----------------------------------------------------------------

  ghost predicate Sound(code: Code, exceptions: set<Edge>) {
    forall e :: e in exceptions ==> Justified(code, e)
  }

  /** The handlers of the first `n` instructions have their edges, except for blocks left to the second pass. */
  ghost predicate CompleteUpTo(code: Code, n: int, detailed: set<int>, exceptions: set<Edge>)
    requires 0 <= n <= |code|
  {
    forall i, h ::
      0 <= i < n && h in code[i].handlers && h in InclUpTo(code, |code|) && code[StartOf(code, i)].pc !in detailed ==>
        HasEdge(exceptions, BlockOf(code, i), h)
  }

  /** The handlers collected for the block of instruction `n - 1`: all of them, unless the block is
      left to the second pass. */
  ghost predicate Current(code: Code, n: int, targets: set<int>, detailed: set<int>)
    requires 0 < n <= |code|
  {
    var s := StartOf(code, n - 1);
    && targets <= Covered(code, s, n)
    && (code[s].pc !in detailed ==> targets == Covered(code, s, n))
  }

  lemma HandlerEdgesSound(code: Code, s: int, n: int, fromPc: Option<int>, handlers: set<int>)
    requires WellFormed(code) && 0 <= s < n <= |code|
    requires forall i :: s <= i < n ==> BlockOf(code, i) == BlockOf(code, s)
    requires fromPc.Some? ==> n == s + 1 && fromPc.value == code[s].pc
    requires handlers <= Covered(code, s, n)
    ensures Sound(code, HandlerEdges(code, BlockOf(code, s), fromPc, handlers))
  {
    hide BlockOf, WellFormed;
    forall e | e in HandlerEdges(code, BlockOf(code, s), fromPc, handlers) ensures Justified(code, e) {
      CoveredIff(code, s, n, e.toPc);
      MapsUpTo(code, |code|, e.toPc);
      var i :| s <= i < n && e.toPc in code[i].handlers;
      var j :| 0 <= j < |code| && code[j].pc == e.toPc;
      assert CaughtAt(code, i, j);
    }
  }

  lemma HandlerEdgesComplete(code: Code, b: int, fromPc: Option<int>, handlers: set<int>, h: int)
    requires h in handlers && h in InclUpTo(code, |code|)
    ensures HasEdge(HandlerEdges(code, b, fromPc, handlers), b, h)
  {
    assert Edge(b, fromPc, InclUpTo(code, |code|)[h], h) in HandlerEdges(code, b, fromPc, handlers);
  }

  lemma MoreEdges(edges: set<Edge>, more: set<Edge>, b: int, h: int)
    requires HasEdge(edges, b, h) || HasEdge(more, b, h)
    ensures HasEdge(edges + more, b, h)
  {
    var e :| e in edges + more && e.from == b && e.toPc == h;
  }

  /** At the end of a block, the common edges are written. */
  lemma Flush(code: Code, n: int, targets: set<int>, detailed: set<int>, exceptions: set<Edge>)
    requires WellFormed(code) && 0 < n <= |code| && Current(code, n, targets, detailed)
    requires Sound(code, exceptions) && CompleteUpTo(code, StartOf(code, n - 1), detailed, exceptions)
    ensures var s := StartOf(code, n - 1);
      var exceptions' := exceptions + HandlerEdges(code, BlockOf(code, s), None, targets);
      Sound(code, exceptions') && CompleteUpTo(code, n, detailed, exceptions')
  {
    var s := StartOf(code, n - 1);
    var more := HandlerEdges(code, BlockOf(code, s), None, targets);
    BlockOfStart(code, n - 1);
    forall i | s <= i < n ensures BlockOf(code, i) == BlockOf(code, s) && StartOf(code, i) == s {
      StartsAgree(code, s, i);
    }
    HandlerEdgesSound(code, s, n, None, targets);
    hide BlockOf, StartsBlock, WellFormed, HandlerEdges, InclUpTo, Justified;
    forall i, h | 0 <= i < n && h in code[i].handlers && h in InclUpTo(code, |code|)
      && code[StartOf(code, i)].pc !in detailed
      ensures HasEdge(exceptions + more, BlockOf(code, i), h)
    {
      if s <= i {
        CoveredIff(code, s, n, h);
        HandlerEdgesComplete(code, BlockOf(code, s), None, targets, h);
      }
      MoreEdges(exceptions, more, BlockOf(code, i), h);
    }
  }

  /** Where the first pass stands after `n` instructions. */
  ghost predicate ExceptionsUpTo(code: Code, n: int, targets: set<int>, detailed: set<int>, exceptions: set<Edge>)
    requires 0 <= n <= |code|
  {
    && Sound(code, exceptions)
    && detailed <= NodesUpTo(code, n).Keys
    && if n == 0 then targets == {} else
         Current(code, n, targets, detailed) && CompleteUpTo(code, StartOf(code, n - 1), detailed, exceptions)
  }

  /** The first instruction of a block. */
  lemma BeginBlock(code: Code, n: int, detailed: set<int>, exceptions: set<Edge>)
    requires WellFormed(code) && 0 <= n < |code| && StartsBlock(code, n)
    requires Sound(code, exceptions) && detailed <= NodesUpTo(code, n).Keys
      && CompleteUpTo(code, n, detailed, exceptions)
    ensures ExceptionsUpTo(code, n + 1, HandlerSet(code[n]), detailed, exceptions)
  {
    NodeCount(code, n);
    hide StartsBlock, WellFormed, Sound;
    assert Covered(code, n, n + 1) == HandlerSet(code[n]) by { assert Covered(code, n, n) == {}; }
    assert StartOf(code, n) == n;
    assert NodesUpTo(code, n).Keys <= NodesUpTo(code, n + 1).Keys;
  }

  /** Any other instruction: if its handlers are not all there were so far, the block is left to the
      second pass and the collection starts again. */
  lemma ContinueBlock(code: Code, n: int, targets: set<int>, detailed: set<int>, exceptions: set<Edge>)
    requires WellFormed(code) && 0 < n < |code| && !StartsBlock(code, n)
    requires ExceptionsUpTo(code, n, targets, detailed, exceptions)
    ensures var collected, start := targets + HandlerSet(code[n]), code[StartOf(code, n - 1)].pc;
      if HandlerSet(code[n]) != collected
      then ExceptionsUpTo(code, n + 1, {}, detailed + {start}, exceptions)
      else ExceptionsUpTo(code, n + 1, collected, detailed, exceptions)
  {
    var s := StartOf(code, n - 1);
    assert StartOf(code, n) == s;
    assert Covered(code, s, n + 1) == Covered(code, s, n) + HandlerSet(code[n]);
    assert NodesUpTo(code, n + 1) == NodesUpTo(code, n);
    MapsUpTo(code, n, code[s].pc);
    hide StartsBlock, WellFormed, Sound, StartOf, Covered, HandlerSet;
    assert CompleteUpTo(code, s, detailed + {code[s].pc}, exceptions);
  }

  lemma NodeAt(code: Code, i: int)
    requires WellFormed(code) && 0 <= i < |code|
    ensures code[i].pc in InclUpTo(code, |code|) && InclUpTo(code, |code|)[code[i].pc] == BlockOf(code, i)
    ensures code[i].pc in NodesUpTo(code, |code|) <==> StartsBlock(code, i)
    ensures StartsBlock(code, i) ==> NodesUpTo(code, |code|)[code[i].pc] == BlockOf(code, i)
  {
    MapsUpTo(code, |code|, code[i].pc);
    forall j | 0 <= j < |code| && j != i ensures code[j].pc != code[i].pc {
      if j < i { Increasing(code, j, i); } else { Increasing(code, i, j); }
    }
  }

  lemma StartIsBefore(code: Code, n: int)
    requires WellFormed(code) && 0 < n < |code| && !StartsBlock(code, n)
    ensures StartOf(code, n) == StartOf(code, n - 1) && code[StartOf(code, n)].pc != code[n].pc
  {
    Increasing(code, StartOf(code, n), n);
  }

  lemma NothingYet(code: Code, detailed: set<int>, exceptions: set<Edge>)
    requires ExceptionsUpTo(code, 0, {}, detailed, exceptions)
    ensures CompleteUpTo(code, 0, detailed, exceptions)
  {
  }

  lemma NoHandlers(code: Code, b: int, exceptions: set<Edge>)
    ensures exceptions + HandlerEdges(code, b, None, {}) == exceptions
  {
  }

  method WriteEdges(code: Code, inclId: map<int, int>, from: int, fromPc: Option<int>, handlers: set<int>)
    returns (edges: set<Edge>)
    requires inclId == InclUpTo(code, |code|)
    ensures edges == HandlerEdges(code, from, fromPc, handlers)
  {
    edges := set h | h in handlers && h in inclId :: Edge(from, fromPc, inclId[h], h);
  }

  /** One instruction of the first pass, as far as exceptions are concerned. */
  method CollectExceptions(code: Code, n: int, nodeId: map<int, int>, inclId: map<int, int>, blockStart: int,
                           targets: set<int>, detailed: set<int>, exceptions: set<Edge>)
    returns (targets': set<int>, detailed': set<int>, exceptions': set<Edge>, blockStart': int)
    requires WellFormed(code) && 0 <= n < |code|
    requires nodeId == NodesUpTo(code, |code|) && inclId == InclUpTo(code, |code|)
    requires ExceptionsUpTo(code, n, targets, detailed, exceptions)
    requires n > 0 ==> blockStart == code[StartOf(code, n - 1)].pc
    ensures blockStart' == code[StartOf(code, n)].pc
    ensures ExceptionsUpTo(code, n + 1, targets', detailed', exceptions')
  {
    hide WellFormed, BlockOf, Sound, Current, CompleteUpTo, NodesUpTo, InclUpTo, Covered, HandlerEdges;
    var pc := code[n].pc;
    targets', detailed', exceptions', blockStart' := targets, detailed, exceptions, blockStart;
    NodeAt(code, n);
    if pc in nodeId {
      if n > 0 {
        NodeAt(code, StartOf(code, n - 1));
        Flush(code, n, targets, detailed, exceptions);
        if targets' != {} {
          var edges := WriteEdges(code, inclId, nodeId[blockStart], None, targets');
          exceptions' := exceptions' + edges;
          targets' := {};
        } else {
          NoHandlers(code, BlockOf(code, StartOf(code, n - 1)), exceptions);
        }
      } else {
        NothingYet(code, detailed, exceptions);
      }
      blockStart' := pc;
      BeginBlock(code, n, detailed', exceptions');
      assert {} + HandlerSet(code[n]) == HandlerSet(code[n]);
    } else {
      ContinueBlock(code, n, targets, detailed, exceptions);
      StartIsBefore(code, n);
    }
    targets' := targets' + HandlerSet(code[n]);
    if blockStart' != pc {
      if HandlerSet(code[n]) != targets' {
        targets' := {};
        detailed' := detailed' + {blockStart'};
      }
    }
  }

  // --- Second pass: blocks whose instructions have different handlers -----------------------------

  function CodeSize(code: Code): int {
    if code == [] then 0 else code[|code| - 1].pc + code[|code| - 1].size
  }

  lemma NextInstruction(code: Code, i: int)
    requires WellFormed(code) && 0 <= i < |code|
    ensures var next := code[i].pc + code[i].size;
      if i + 1 < |code| then next == code[i + 1].pc < CodeSize(code) else next == CodeSize(code)
  {
    if i + 1 < |code| - 1 {
      Increasing(code, i + 1, |code| - 1);
    }
  }

  /** Instruction `i` has an edge of its own to handler `h`, if an instruction is there. */
  ghost predicate HasOwnEdge(code: Code, edges: set<Edge>, i: int, h: int)
    requires 0 <= i < |code|
  {
    var incl := InclUpTo(code, |code|);
    h in code[i].handlers && h in incl ==> Edge(BlockOf(code, i), Some(code[i].pc), incl[h], h) in edges
  }

  lemma OwnEdgeIsEdge(code: Code, edges: set<Edge>, i: int, h: int)
    requires 0 <= i < |code| && HasOwnEdge(code, edges, i, h) && h in code[i].handlers && h in InclUpTo(code, |code|)
    ensures HasEdge(edges, BlockOf(code, i), h)
  {
  }

  /** All handlers of the instructions of one block up to and including `i`. */
  ghost predicate DetailedUpTo(code: Code, s: int, i: int, edges: set<Edge>)
    requires 0 <= s <= i < |code|
  {
    && Sound(code, edges)
    && forall j, h :: s <= j <= i ==> HasOwnEdge(code, edges, j, h)
  }

  lemma DetailStep(code: Code, s: int, i: int, edges: set<Edge>)
    requires WellFormed(code) && 0 <= s <= i < |code| && StartOf(code, i) == s
    requires if i == s then edges == {} else DetailedUpTo(code, s, i - 1, edges)
    ensures var more := HandlerEdges(code, BlockOf(code, s), Some(code[i].pc), HandlerSet(code[i]));
      DetailedUpTo(code, s, i, edges + more)
  {
    hide WellFormed, BlockOf, StartOf, StartsBlock, InclUpTo, Justified;
    var more := HandlerEdges(code, BlockOf(code, s), Some(code[i].pc), HandlerSet(code[i]));
    BlockOfStart(code, i);
    assert Sound(code, more) by {
      assert Covered(code, i, i + 1) == Covered(code, i, i) + HandlerSet(code[i]);
      HandlerEdgesSound(code, i, i + 1, Some(code[i].pc), HandlerSet(code[i]));
    }
    forall j, h | s <= j <= i ensures HasOwnEdge(code, edges + more, j, h) {
      assert j < i ==> HasOwnEdge(code, edges, j, h);
    }
  }

  /** One block of the second pass. The walk ends with the block. */
  method DetailBlock(code: Code, nodeId: map<int, int>, inclId: map<int, int>, start: int) returns (edges: set<Edge>)
    requires WellFormed(code) && nodeId == NodesUpTo(code, |code|) && inclId == InclUpTo(code, |code|)
    requires start in nodeId
    ensures Sound(code, edges)
    ensures forall i, h :: 0 <= i < |code| && code[StartOf(code, i)].pc == start ==> HasOwnEdge(code, edges, i, h)
  {
    hide WellFormed, InclUpTo, NodesUpTo, BlockOf, HandlerEdges, DetailedUpTo, Sound, HasOwnEdge, HandlerSet;
    hide Falls, CompleteUpTo;
    MapsUpTo(code, |code|, start);
    var i :| 0 <= i < |code| && code[i].pc == start;
    ghost var s := i;
    NodeAt(code, s);
    var node := inclId[start];
    edges := {};
    while true
      invariant s <= i < |code| && StartOf(code, i) == s
      invariant if i == s then edges == {} else DetailedUpTo(code, s, i - 1, edges)
      decreases |code| - i
    {
      var more := WriteEdges(code, inclId, node, Some(code[i].pc), HandlerSet(code[i]));
      DetailStep(code, s, i, edges);
      edges := edges + more;
      NextInstruction(code, i);
      if EndsBlock(code[i]) {
        break;
      }
      var pc := code[i].pc + code[i].size;
      if pc >= CodeSize(code) {
        break;
      }
      NodeAt(code, i + 1);
      if pc in nodeId {
        break;
      }
      i := i + 1;
    }
    BlockDetailed(code, s, i, edges);
  }

  lemma BlockDetailed(code: Code, s: int, last: int, edges: set<Edge>)
    requires WellFormed(code) && 0 <= s <= last < |code| && StartOf(code, last) == s
      && DetailedUpTo(code, s, last, edges)
    requires last + 1 == |code| || StartsBlock(code, last + 1)
    ensures Sound(code, edges)
    ensures forall i, h ::
      0 <= i < |code| && code[StartOf(code, i)].pc == code[s].pc ==> HasOwnEdge(code, edges, i, h)
  {
    hide HasOwnEdge;
    forall i, h | 0 <= i < |code| && code[StartOf(code, i)].pc == code[s].pc
      ensures HasOwnEdge(code, edges, i, h)
    {
      var t := StartOf(code, i);
      assert t == s by {
        if t < s { Increasing(code, t, s); } else if s < t { Increasing(code, s, t); }
      }
      BlockOfStart(code, i);
      assert i <= last;
    }
  }

  /** Every instruction of the blocks in `detailed` has its own edges. */
  ghost predicate AllDetailed(code: Code, detailed: set<int>, edges: set<Edge>) {
    forall i, h :: 0 <= i < |code| && code[StartOf(code, i)].pc in detailed ==> HasOwnEdge(code, edges, i, h)
  }

  /** Afterwards every handler of every instruction has its edge. */
  method SecondPass(code: Code, nodeId: map<int, int>, inclId: map<int, int>, detailed: set<int>, exceptions: set<Edge>)
    returns (exceptions': set<Edge>)
    requires WellFormed(code) && nodeId == NodesUpTo(code, |code|) && inclId == InclUpTo(code, |code|)
    requires detailed <= nodeId.Keys
    requires Sound(code, exceptions) && CompleteUpTo(code, |code|, detailed, exceptions)
    ensures Sound(code, exceptions') && CompleteUpTo(code, |code|, {}, exceptions')
    ensures AllDetailed(code, detailed, exceptions')
  {
    hide WellFormed, BlockOf, StartOf, InclUpTo, NodesUpTo, Justified, CompleteUpTo, AllDetailed, HasOwnEdge;
    exceptions' := exceptions;
    var rest := detailed;
    NothingDetailed(code, detailed, exceptions);
    while rest != {}
      invariant rest <= detailed
      invariant Sound(code, exceptions') && CompleteUpTo(code, |code|, rest, exceptions')
      invariant AllDetailed(code, detailed - rest, exceptions')
      decreases |rest|
    {
      Sets.NonEmpty(rest);
      var start :| start in rest;
      var edges := DetailBlock(code, nodeId, inclId, start);
      OneLessDetailed(code, rest, start, exceptions', edges);
      OneMoreDetailed(code, detailed, rest, start, exceptions', edges);
      exceptions' := exceptions' + edges;
      rest := rest - {start};
    }
    assert detailed - rest == detailed;
  }

  lemma NothingDetailed(code: Code, detailed: set<int>, edges: set<Edge>)
    ensures AllDetailed(code, detailed - detailed, edges)
  {
  }

  lemma OneMoreDetailed(code: Code, detailed: set<int>, rest: set<int>, start: int, exceptions: set<Edge>,
      edges: set<Edge>)
    requires AllDetailed(code, detailed - rest, exceptions)
    requires forall i, h :: 0 <= i < |code| && code[StartOf(code, i)].pc == start ==> HasOwnEdge(code, edges, i, h)
    ensures AllDetailed(code, detailed - (rest - {start}), exceptions + edges)
  {
    hide BlockOf, StartOf, InclUpTo;
    forall i, h | 0 <= i < |code| && code[StartOf(code, i)].pc in detailed - (rest - {start})
      ensures HasOwnEdge(code, exceptions + edges, i, h)
    {
      if code[StartOf(code, i)].pc == start {
        assert HasOwnEdge(code, edges, i, h);
      } else {
        assert HasOwnEdge(code, exceptions, i, h);
      }
    }
  }

  lemma OneLessDetailed(code: Code, rest: set<int>, start: int, exceptions: set<Edge>, edges: set<Edge>)
    requires CompleteUpTo(code, |code|, rest, exceptions)
    requires forall i, h :: 0 <= i < |code| && code[StartOf(code, i)].pc == start ==> HasOwnEdge(code, edges, i, h)
    ensures CompleteUpTo(code, |code|, rest - {start}, exceptions + edges)
  {
    hide BlockOf, StartOf, InclUpTo, HasEdge, HasOwnEdge;
    forall i, h | 0 <= i < |code| && h in code[i].handlers && h in InclUpTo(code, |code|)
                  && code[StartOf(code, i)].pc !in rest - {start}
      ensures HasEdge(exceptions + edges, BlockOf(code, i), h)
    {
      if code[StartOf(code, i)].pc == start {
        OwnEdgeIsEdge(code, edges, i, h);
      }
      MoreEdges(exceptions, edges, BlockOf(code, i), h);
    }
  }

  // --- The whole graph -----------------------------------------------------------------------------

  datatype Graph = Graph(regular: set<Edge>, taken: set<Edge>, exceptions: set<Edge>)

  /** The edges for one jump: those targets that are block starts. */
  method WriteTaken(code: Code, n: int, nodeId: map<int, int>, node: int) returns (taken: set<Edge>)
    requires 0 <= n < |code| && nodeId == NodesUpTo(code, |code|) && node == BlockOf(code, n)
    ensures taken == TakenFrom(code, n, TargetList(code[n]))
  {
    hide BlockOf, NodesUpTo;
    var targets := TargetList(code[n]);
    taken := {};
    for k := 0 to |targets|
      invariant taken == TakenFrom(code, n, targets[..k])
    {
      var t := targets[k];
      if t in nodeId {
        taken := taken + {Edge(node, Some(code[n].pc), nodeId[t], t)};
      }
      assert targets[..k + 1][..k] == targets[..k];
    }
    assert targets[..|targets|] == targets;
  }

  method FirstPass(code: Code, nodeId: map<int, int>, inclId: map<int, int>)
    returns (regular: set<Edge>, taken: set<Edge>, exceptions: set<Edge>, detailed: set<int>)
    requires WellFormed(code) && nodeId == NodesUpTo(code, |code|) && inclId == InclUpTo(code, |code|)
    ensures regular == RegularUpTo(code, |code|) && taken == TakenUpTo(code, |code|)
    ensures Sound(code, exceptions) && detailed <= nodeId.Keys && CompleteUpTo(code, |code|, detailed, exceptions)
  {
    hide WellFormed, BlockOf, NodesUpTo, InclUpTo, Sound, Current, CompleteUpTo, ExceptionsUpTo, TakenFrom, StartOf;
    regular, taken, exceptions, detailed := {}, {}, {}, {};
    var lastNode: Option<int>, oldPc, blockStart, targets := None, 0, -1, {};
    NothingAtAll(code);
    for n := 0 to |code|
      invariant lastNode == if n > 0 && Falls(code[n - 1]) then Some(BlockOf(code, n - 1)) else None
      invariant n > 0 ==> oldPc == code[n - 1].pc && blockStart == code[StartOf(code, n - 1)].pc
      invariant regular == RegularUpTo(code, n) && taken == TakenUpTo(code, n)
      invariant ExceptionsUpTo(code, n, targets, detailed, exceptions)
    {
      var pc := code[n].pc;
      NodeAt(code, n);
      LastNode(code, n);
      targets, detailed, exceptions, blockStart :=
        CollectExceptions(code, n, nodeId, inclId, blockStart, targets, detailed, exceptions);
      if pc in nodeId {
        var oldLast := lastNode;
        lastNode := Some(nodeId[pc]);
        if oldLast.Some? {
          regular := regular + {Edge(oldLast.value, Some(oldPc), lastNode.value, pc)};
        }
      }
      if code[n].kind.Branch? || code[n].kind.Switch? {
        var edges := WriteTaken(code, n, nodeId, lastNode.value);
        taken := taken + edges;
      } else {
        NoJumps(code, n, taken);
      }
      if !Falls(code[n]) {
        lastNode := None;
      }
      oldPc := pc;
    }
    LastFlush(code, targets, detailed, exceptions);
    if targets != {} {
      var edges := WriteEdges(code, inclId, nodeId[blockStart], None, targets);
      exceptions := exceptions + edges;
    }
  }

  /** Inside a block the previous instruction is in the same block and falls through. */
  lemma LastNode(code: Code, n: int)
    requires 0 <= n < |code|
    ensures !StartsBlock(code, n) ==> n > 0 && Falls(code[n - 1]) && BlockOf(code, n) == BlockOf(code, n - 1)
  {
  }

  lemma NoJumps(code: Code, n: int, taken: set<Edge>)
    requires 0 <= n < |code| && !code[n].kind.Branch? && !code[n].kind.Switch?
    ensures taken + TakenFrom(code, n, TargetList(code[n])) == taken
  {
  }

  lemma LastFlush(code: Code, targets: set<int>, detailed: set<int>, exceptions: set<Edge>)
    requires WellFormed(code) && ExceptionsUpTo(code, |code|, targets, detailed, exceptions)
    ensures detailed <= NodesUpTo(code, |code|).Keys
    ensures targets == {} ==> Sound(code, exceptions) && CompleteUpTo(code, |code|, detailed, exceptions)
    ensures targets != {} ==>
      && code != []
      && var s := StartOf(code, |code| - 1);
      && code[s].pc in NodesUpTo(code, |code|)
      && var exceptions' := exceptions + HandlerEdges(code, NodesUpTo(code, |code|)[code[s].pc], None, targets);
      Sound(code, exceptions') && CompleteUpTo(code, |code|, detailed, exceptions')
  {
    hide WellFormed, BlockOf, HandlerEdges, Justified, HasEdge;
    if code != [] {
      var s := StartOf(code, |code| - 1);
      NodeAt(code, s);
      Flush(code, |code|, targets, detailed, exceptions);
      if targets == {} {
        NoHandlers(code, BlockOf(code, s), exceptions);
      }
    }
  }

  lemma NothingAtAll(code: Code)
    ensures ExceptionsUpTo(code, 0, {}, {}, {})
  {
  }

}
