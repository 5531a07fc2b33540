/** The instructions of a method as the control-flow-graph dumper sees them, and what its blocks and
    edges are supposed to be. */
module Bytecode {

  /** How an instruction can transfer control. */
  datatype Kind =
    | Plain
    | Branch(target: int, unconditional: bool)
    | Switch(targets: seq<int>)
    | Return
    | Throw

  /** `handlers`: the addresses of the catch handlers that cover the instruction. */
  datatype Inst = Inst(pc: int, size: int, kind: Kind, handlers: seq<int>)

  type Code = seq<Inst>

  /** Instructions follow each other without gaps. */
  ghost predicate WellFormed(code: Code) {
    && (forall i :: 0 <= i < |code| ==> code[i].size > 0)
    && (code != [] ==> code[0].pc == 0)
    && (forall i :: 0 < i < |code| ==> code[i].pc == code[i - 1].pc + code[i - 1].size)
  }

  /** Addresses increase, so an address belongs to at most one instruction. */
  lemma {:induction false} Increasing(code: Code, i: int, j: int)
    requires WellFormed(code) && 0 <= i < j < |code|
    ensures code[i].pc + code[i].size <= code[j].pc
    decreases j
  {
    if i < j - 1 {
      Increasing(code, i, j - 1);
    }
  }

  lemma {:induction false} NonNegative(code: Code, i: int)
    requires WellFormed(code) && 0 <= i < |code|
    ensures code[i].pc >= i
  {
    if i > 0 {
      NonNegative(code, i - 1);
    }
  }

  predicate EndsBlock(inst: Inst) {
    inst.kind.Branch? || inst.kind.Return? || inst.kind.Throw?
  }

  /** Control can reach the next instruction without a jump. */
  predicate Falls(inst: Inst) {
    !inst.kind.Return? && !inst.kind.Throw? && !(inst.kind.Branch? && inst.kind.unconditional)
  }

  function Jumps(inst: Inst): set<int> {
    match inst.kind
    case Branch(target, _) => {target}
    case Switch(targets) => set t | t in targets
    case _ => {}
  }

  // --- The reference: one instruction after the other -------------------------------------------

  /** Control can go from instruction `i` to instruction `j` without an exception. */
  predicate Successor(code: Code, i: int, j: int) {
    && 0 <= i < |code| && 0 <= j < |code|
    && ((j == i + 1 && Falls(code[i])) || code[j].pc in Jumps(code[i]))
  }

  /** An exception raised by instruction `i` can be caught at instruction `j`. */
  predicate CaughtAt(code: Code, i: int, j: int) {
    0 <= i < |code| && 0 <= j < |code| && code[j].pc in code[i].handlers
  }

  // --- Blocks ------------------------------------------------------------------------------------

  /** All jump targets of the first `n` instructions. */
  function TargetsUpTo(code: Code, n: int): set<int>
    requires 0 <= n <= |code|
  {
    if n == 0 then {} else TargetsUpTo(code, n - 1) + Jumps(code[n - 1])
  }

  predicate StartsBlock(code: Code, i: int)
    requires 0 <= i < |code|
  {
    i == 0 || code[i].pc in TargetsUpTo(code, |code|) || EndsBlock(code[i - 1]) || code[i - 1].kind.Switch?
  }

  /** The number of the block an instruction is in. */
  function BlockOf(code: Code, i: int): (b: nat)
    requires 0 <= i < |code|
    ensures b <= i
  {
    if i == 0 then 0 else BlockOf(code, i - 1) + (if StartsBlock(code, i) then 1 else 0)
  }

  /** The first instruction of the block an instruction is in. */
  function StartOf(code: Code, i: int): (s: int)
    requires 0 <= i < |code|
    ensures 0 <= s <= i && StartsBlock(code, s)
  {
    if StartsBlock(code, i) then i else StartOf(code, i - 1)
  }

  lemma {:induction false} TargetsContain(code: Code, n: int, i: int, t: int)
    requires 0 <= i < n <= |code| && t in Jumps(code[i])
    ensures t in TargetsUpTo(code, n)
  {
    if i < n - 1 {
      TargetsContain(code, n - 1, i, t);
    }
  }

  lemma {:induction false} BlockOfStart(code: Code, i: int)
    requires 0 <= i < |code|
    ensures BlockOf(code, StartOf(code, i)) == BlockOf(code, i)
    ensures forall j :: StartOf(code, i) < j <= i ==> !StartsBlock(code, j)
  {
    if !StartsBlock(code, i) {
      BlockOfStart(code, i - 1);
    }
  }

  lemma {:induction false} BlocksInOrder(code: Code, i: int, j: int)
    requires 0 <= i <= j < |code|
    ensures BlockOf(code, i) <= BlockOf(code, j)
    ensures (exists k :: i < k <= j && StartsBlock(code, k)) ==> BlockOf(code, i) < BlockOf(code, j)
    decreases j
  {
    if i < j {
      BlocksInOrder(code, i, j - 1);
    }
  }

  /** Two instructions are in the same block if and only if their blocks start at the same place:
      blocks are consecutive runs, numbered in order. */
  lemma SameBlockIff(code: Code, i: int, j: int)
    requires 0 <= i <= j < |code|
    ensures BlockOf(code, i) == BlockOf(code, j) <==> StartOf(code, i) == StartOf(code, j)
    ensures BlockOf(code, i) == BlockOf(code, j) <==> forall k :: i < k <= j ==> !StartsBlock(code, k)
  {
    BlockOfStart(code, i);
    BlockOfStart(code, j);
    BlocksInOrder(code, i, j);
    if forall k :: i < k <= j ==> !StartsBlock(code, k) {
      StartsAgree(code, i, j);
    }
  }

  lemma {:induction false} StartsAgree(code: Code, i: int, j: int)
    requires 0 <= i <= j < |code| && forall k :: i < k <= j ==> !StartsBlock(code, k)
    ensures StartOf(code, i) == StartOf(code, j) && BlockOf(code, i) == BlockOf(code, j)
    decreases j
  {
    if i < j {
      StartsAgree(code, i, j - 1);
    }
  }

  /** Blocks are basic: control enters them at the start only, and leaves them at the end only. */
  lemma BlocksAreBasic(code: Code, i: int, j: int)
    requires WellFormed(code) && Successor(code, i, j)
    ensures StartsBlock(code, j) || (j == i + 1 && BlockOf(code, i) == BlockOf(code, j))
    ensures StartsBlock(code, j) ==> i + 1 == |code| || StartsBlock(code, i + 1)
  {
    if code[j].pc in Jumps(code[i]) {
      TargetsContain(code, |code|, i, code[j].pc);
    }
  }
}
