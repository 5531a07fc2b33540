/** `DumpMethodCFG`, first part: jump targets and blocks. */
module BasicBlocks {
  import opened Bytecode

  // --- First loop: jump targets ------------------------------------------------------------------

  method CollectTargets(code: Code) returns (targets: set<int>)
    ensures targets == TargetsUpTo(code, |code|)
  {
    targets := {};
    for n := 0 to |code|
      invariant targets == TargetsUpTo(code, n)
    {
      if code[n].kind.Branch? {
        targets := targets + {code[n].kind.target};
      } else if code[n].kind.Switch? {
        var list := code[n].kind.targets;
        for k := 0 to |list|
          invariant targets == TargetsUpTo(code, n) + set t | t in list[..k]
        {
          targets := targets + {list[k]};
          assert list[..k + 1] == list[..k] + [list[k]];
        }
        assert list[..|list|] == list;
      }
    }
  }

  // --- Second loop: blocks -----------------------------------------------------------------------

  /** The block numbers of the first `n` instructions by address, and of the block starts only. */
  function InclUpTo(code: Code, n: int): map<int, int>
    requires 0 <= n <= |code|
  {
    if n == 0 then map[] else InclUpTo(code, n - 1)[code[n - 1].pc := BlockOf(code, n - 1)]
  }

  function NodesUpTo(code: Code, n: int): map<int, int>
    requires 0 <= n <= |code|
  {
    if n == 0 then map[]
    else if StartsBlock(code, n - 1) then NodesUpTo(code, n - 1)[code[n - 1].pc := BlockOf(code, n - 1)]
    else NodesUpTo(code, n - 1)
  }

  /** An address has a block number if and only if there is an instruction, and a node number if and
      only if a block starts there. */
  lemma {:induction false} MapsUpTo(code: Code, n: int, p: int)
    requires WellFormed(code) && 0 <= n <= |code|
    ensures p in InclUpTo(code, n) <==> exists i :: 0 <= i < n && code[i].pc == p
    ensures p in NodesUpTo(code, n) <==> exists i :: 0 <= i < n && code[i].pc == p && StartsBlock(code, i)
    ensures forall i :: 0 <= i < n && code[i].pc == p ==>
              && InclUpTo(code, n)[p] == BlockOf(code, i)
              && (StartsBlock(code, i) ==> NodesUpTo(code, n)[p] == BlockOf(code, i))
  {
    if n > 0 {
      MapsUpTo(code, n - 1, p);
      forall i | 0 <= i < n - 1 ensures code[i].pc < code[n - 1].pc {
        Increasing(code, i, n - 1);
      }
      hide WellFormed, BlockOf, StartsBlock;
    }
  }

  lemma {:induction false} NodeCount(code: Code, n: int)
    requires WellFormed(code) && 0 <= n <= |code|
    ensures |NodesUpTo(code, n)| == if n == 0 then 0 else BlockOf(code, n - 1) + 1
    ensures n < |code| ==> code[n].pc !in NodesUpTo(code, n)
  {
    if n > 0 {
      NodeCount(code, n - 1);
    }
    if n < |code| {
      MapsUpTo(code, n, code[n].pc);
      forall i | 0 <= i < n ensures code[i].pc < code[n].pc {
        Increasing(code, i, n);
      }
    }
  }

  method SplitBlocks(code: Code, targets: set<int>) returns (nodeId: map<int, int>, inclId: map<int, int>)
    requires WellFormed(code) && targets == TargetsUpTo(code, |code|)
    ensures nodeId == NodesUpTo(code, |code|) && inclId == InclUpTo(code, |code|)
  {
    hide WellFormed, TargetsUpTo, BlockOf;
    nodeId, inclId := map[], map[];
    var forceNewBlock := false;
    for n := 0 to |code|
      invariant nodeId == NodesUpTo(code, n) && inclId == InclUpTo(code, n)
      invariant n > 0 ==> forceNewBlock == (code[n - 1].kind.Switch? || EndsBlock(code[n - 1]))
      invariant n == 0 ==> !forceNewBlock
    {
      var pc := code[n].pc;
      NodeCount(code, n);
      NodeCount(code, n + 1);
      FirstAddress(code, n);
      if pc == 0 || pc in targets || forceNewBlock {
        var id := |nodeId|;
        nodeId := nodeId[pc := id];
      }
      inclId := inclId[pc := |nodeId| - 1];
      forceNewBlock := code[n].kind.Switch? || EndsBlock(code[n]);
    }
  }

  lemma FirstAddress(code: Code, n: int)
    requires WellFormed(code) && 0 <= n < |code|
    ensures code[n].pc == 0 <==> n == 0
  {
    NonNegative(code, n);
  }
}
