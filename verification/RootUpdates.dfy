/** Re-keying a log after objects have moved. */
module RootUpdates {
  import opened ManagedHeap
  import opened TransactionLog
  import Sets

  /** The moved keys and their new addresses, in descending order of the old address: the list
      is filled from the front while the log is walked in ascending order. */
  ghost predicate MovingRoots(fwd: map<Addr, Addr>, keys: set<Addr>, moving: seq<(Addr, Addr)>) {
    && (forall i :: 0 <= i < |moving| ==> moving[i].0 in keys && moving[i].1 == Visit(fwd, moving[i].0) != moving[i].0)
    && (forall i, j :: 0 <= i < j < |moving| ==> moving[j].0 < moving[i].0)
    && (forall a :: a in keys && Visit(fwd, a) != a ==> Listed(moving, 0, a))
  }

  /** The key is in the list, from position `i` on. */
  ghost predicate Listed(moving: seq<(Addr, Addr)>, i: int, a: Addr) {
    exists j :: 0 <= i <= j < |moving| && moving[j].0 == a
  }

  /** Where the entry of key `a` is once the keys from `bound` upwards have been processed. */
  function Current(fwd: map<Addr, Addr>, bound: Addr, a: Addr): Addr {
    if a >= bound then Visit(fwd, a) else a
  }

  ghost predicate Halfway<V>(fwd: map<Addr, Addr>, bound: Addr, m: map<Addr, V>, m': map<Addr, V>) {
    && (forall a {:trigger Current(fwd, bound, a)} :: a in m ==>
        Current(fwd, bound, a) in m' && m'[Current(fwd, bound, a)] == m[a])
    && (forall b {:trigger Occupied(fwd, bound, m.Keys, b)} :: b in m' ==> Occupied(fwd, bound, m.Keys, b))
  }

  ghost predicate Occupied(fwd: map<Addr, Addr>, bound: Addr, keys: set<Addr>, b: Addr) {
    exists a :: a in keys && Current(fwd, bound, a) == b
  }

  /** No clash among the keys from `bound` upwards. */
  ghost predicate NoClashFrom(fwd: map<Addr, Addr>, bound: Addr, keys: set<Addr>) {
    forall a, b :: a in keys && b in keys && bound <= a && b < a && Visit(fwd, a) == b ==> Visit(fwd, b) == b
  }

  function Extract<V>(m: map<Addr, V>, a: Addr): map<Addr, V> {
    map b | b in m && b != a :: m[b]
  }

  /** One round of `UpdateKeys` takes out the entry of `a`, the greatest moved key below `bound`.
      Its new address is free unless it is that of a smaller key that still has to move. */
  lemma FreeUnlessClash<V>(fwd: map<Addr, Addr>, bound: Addr, a: Addr, m: map<Addr, V>, m': map<Addr, V>)
    requires InjectiveOn(fwd, m.Keys) && Halfway(fwd, bound, m, m') && NoClashFrom(fwd, bound, m.Keys)
    requires a in m && a < bound && Visit(fwd, a) != a
    requires forall b :: b in m && a < b < bound ==> Visit(fwd, b) == b
    ensures Visit(fwd, a) in m' <==> !NoClashFrom(fwd, a, m.Keys)
  {
    var n := Visit(fwd, a);
    if n in m' {
      assert Occupied(fwd, bound, m.Keys, n);
      var b :| b in m && Current(fwd, bound, b) == n;
      assert b < a && b == n && Visit(fwd, b) != b;
    } else {
      forall x, b | x in m && b in m && a <= x && b < x && Visit(fwd, x) == b ensures Visit(fwd, b) == b {
        assert Current(fwd, bound, b) in m';
        assert x == a ==> b >= bound || b == n;
      }
    }
  }

  lemma UpdateKey<V>(fwd: map<Addr, Addr>, bound: Addr, a: Addr, m: map<Addr, V>, m': map<Addr, V>)
    requires Halfway(fwd, bound, m, m') && NoClashFrom(fwd, bound, m.Keys)
    requires a in m && a < bound && Visit(fwd, a) != a && Visit(fwd, a) !in m' && a in m'
    requires forall b :: b in m && a < b < bound ==> Visit(fwd, b) == b
    ensures Halfway(fwd, a, m, Extract(m', a)[Visit(fwd, a) := m'[a]])
  {
    var n := Visit(fwd, a);
    var m'' := Extract(m', a)[n := m'[a]];
    assert Current(fwd, bound, a) == a;
    forall x | x in m ensures Current(fwd, a, x) in m'' && m''[Current(fwd, a, x)] == m[x] {
      assert Current(fwd, bound, x) in m';
      if x != a {
        assert Current(fwd, a, x) == Current(fwd, bound, x);
        assert Current(fwd, a, x) != n;
        assert x >= bound ==> Visit(fwd, x) != a;
      }
    }
    forall b | b in m'' ensures Occupied(fwd, a, m.Keys, b) {
      if b == n {
        assert Current(fwd, a, a) == b;
      } else {
        assert Occupied(fwd, bound, m.Keys, b);
        var x :| x in m && Current(fwd, bound, x) == b;
        assert Current(fwd, a, x) == b;
      }
    }
  }

  /** `UpdateKeys`. Its final check passes if and only if no moved key lands on a smaller key
      that moves too; then the result is the log under its new keys. */
  method UpdateKeys<V>(fwd: map<Addr, Addr>, moving: seq<(Addr, Addr)>, m: map<Addr, V>)
    returns (ok: bool, m': map<Addr, V>)
    requires InjectiveOn(fwd, m.Keys) && MovingRoots(fwd, m.Keys, moving)
    ensures ok <==> NoDownwardClash(fwd, m.Keys)
    ensures ok ==> Rekeyed(fwd, m, m')
  {
    hide Halfway, NoClashFrom, Remaining, MovingRoots, InjectiveOn, NoDownwardClash, Rekeyed, Visit;
    m', ok := m, true;
    ghost var bound := Above(m.Keys);
    NothingProcessed(fwd, m, moving);
    for i := 0 to |moving|
      invariant Halfway(fwd, bound, m, m') && NoClashFrom(fwd, bound, m.Keys)
      invariant Remaining(fwd, bound, m.Keys, moving, i)
    {
      var (oldRoot, newRoot) := moving[i];
      NoneBetween(fwd, bound, m.Keys, moving, i);
      StillUnderOldKey(fwd, bound, oldRoot, m, m');
      FreeUnlessClash(fwd, bound, oldRoot, m, m');
      var value := m'[oldRoot];
      var extracted := Extract(m', oldRoot);
      if newRoot in extracted {
        ClashAnywhere(fwd, oldRoot, m.Keys);
        return false, extracted;
      }
      UpdateKey(fwd, bound, oldRoot, m, m');
      m' := extracted[newRoot := value];
      bound := oldRoot;
    }
    AllProcessed(fwd, bound, m, m', moving);
  }

  lemma NothingProcessed<V>(fwd: map<Addr, Addr>, m: map<Addr, V>, moving: seq<(Addr, Addr)>)
    requires MovingRoots(fwd, m.Keys, moving)
    ensures var bound := Above(m.Keys);
      Halfway(fwd, bound, m, m) && NoClashFrom(fwd, bound, m.Keys) && Remaining(fwd, bound, m.Keys, moving, 0)
  {
    hide Above, Visit, Halfway, MovingRoots, Remaining, Current;
    var bound := Above(m.Keys);
    AllInPlace(fwd, bound, m);
    AllRemaining(fwd, bound, m.Keys, moving);
  }

  lemma AllInPlace<V>(fwd: map<Addr, Addr>, bound: Addr, m: map<Addr, V>)
    requires forall a :: a in m ==> a < bound
    ensures Halfway(fwd, bound, m, m)
  {
    hide Visit;
    forall b | b in m ensures Occupied(fwd, bound, m.Keys, b) {
      assert Current(fwd, bound, b) == b;
    }
  }

  lemma AllRemaining(fwd: map<Addr, Addr>, bound: Addr, keys: set<Addr>, moving: seq<(Addr, Addr)>)
    requires MovingRoots(fwd, keys, moving) && forall a :: a in keys ==> a < bound
    ensures Remaining(fwd, bound, keys, moving, 0)
  {
    hide Visit, Listed;
  }

  lemma StillUnderOldKey<V>(fwd: map<Addr, Addr>, bound: Addr, a: Addr, m: map<Addr, V>, m': map<Addr, V>)
    requires Halfway(fwd, bound, m, m') && a in m && a < bound
    ensures a in m'
  {
    assert Current(fwd, bound, a) == a;
  }

  /** The moved keys below `bound` are those of the rest of the list. */
  ghost predicate Remaining(fwd: map<Addr, Addr>, bound: Addr, keys: set<Addr>, moving: seq<(Addr, Addr)>, i: int) {
    && (forall a :: a in keys && a < bound && Visit(fwd, a) != a ==> Listed(moving, i, a))
    && (forall j :: 0 <= i <= j < |moving| ==> moving[j].0 < bound)
  }

  lemma NoneBetween(fwd: map<Addr, Addr>, bound: Addr, keys: set<Addr>, moving: seq<(Addr, Addr)>, i: nat)
    requires MovingRoots(fwd, keys, moving) && Remaining(fwd, bound, keys, moving, i) && i < |moving|
    ensures moving[i].0 in keys && moving[i].0 < bound && moving[i].1 == Visit(fwd, moving[i].0) != moving[i].0
    ensures forall b :: b in keys && moving[i].0 < b < bound ==> Visit(fwd, b) == b
    ensures Remaining(fwd, moving[i].0, keys, moving, i + 1)
  {
    forall b | b in keys && b < bound && Visit(fwd, b) != b
      ensures b <= moving[i].0
      ensures b < moving[i].0 ==> Listed(moving, i + 1, b)
    {
      assert Listed(moving, i, b);
      var j :| i <= j < |moving| && moving[j].0 == b;
      assert j > i ==> moving[j].0 < moving[i].0;
    }
  }

  lemma ClashAnywhere(fwd: map<Addr, Addr>, bound: Addr, keys: set<Addr>)
    requires !NoClashFrom(fwd, bound, keys)
    ensures !NoDownwardClash(fwd, keys)
  {
  }

  lemma AllProcessed<V>(fwd: map<Addr, Addr>, bound: Addr, m: map<Addr, V>, m': map<Addr, V>, moving: seq<(Addr, Addr)>)
    requires Halfway(fwd, bound, m, m') && NoClashFrom(fwd, bound, m.Keys)
    requires Remaining(fwd, bound, m.Keys, moving, |moving|)
    ensures NoDownwardClash(fwd, m.Keys) && Rekeyed(fwd, m, m')
  {
    forall a | a in m ensures Current(fwd, bound, a) == Visit(fwd, a) && (a < bound ==> Visit(fwd, a) == a) {
      assert !Listed(moving, |moving|, a);
    }
    forall b | b in m' ensures MovedFrom(fwd, m.Keys, b) {
      assert Occupied(fwd, bound, m.Keys, b);
      var a :| a in m && Current(fwd, bound, a) == b;
    }
  }

  ghost function Above(keys: set<Addr>): (bound: Addr)
    ensures forall a :: a in keys ==> a < bound
  {
    if keys == {} then 0
    else
      Sets.NonEmpty(keys);
      var a :| a in keys;
      var b := Above(keys - {a});
      assert forall x :: x in keys ==> x == a || x in keys - {a};
      if a < b then b else a + 1
  }

  /** Two entries of a log can clash although they move to different addresses: a collector that
      slides objects downwards can move one logged object onto the old address of another. */
  lemma SlidingCollectorClashes()
    ensures var fwd := map[200 := 100, 100 := 50];
            InjectiveOn(fwd, {100, 200}) && !NoDownwardClash(fwd, {100, 200})
  {
    var fwd := map[200 := 100, 100 := 50];
    assert Visit(fwd, 200) == 100 && Visit(fwd, 100) == 50;
  }

  /** A copying collector, whose new addresses are none of the old ones, never clashes. */
  lemma CopyingCollectorNeverClashes(fwd: map<Addr, Addr>, keys: set<Addr>)
    requires forall a :: a in keys && Visit(fwd, a) != a ==> Visit(fwd, a) !in keys
    ensures NoDownwardClash(fwd, keys)
  {
  }

  // --- Walking a log in order -------------------------------------------------------------------

  method Least(keys: set<Addr>) returns (a: Addr)
    requires keys != {}
    ensures a in keys && forall b :: b in keys ==> a <= b
  {
    Sets.NonEmpty(keys);
    a :| a in keys;
    var rest := keys - {a};
    while rest != {}
      invariant rest <= keys && a in keys
      invariant forall b :: b in keys && b !in rest ==> a <= b
      decreases rest
    {
      Sets.NonEmpty(rest);
      var b :| b in rest;
      if b < a {
        a := b;
      }
      rest := rest - {b};
    }
  }

  /** The walk over a log that collects the moved keys. */
  method CollectMovingRoots(fwd: map<Addr, Addr>, keys: set<Addr>) returns (moving: seq<(Addr, Addr)>)
    ensures MovingRoots(fwd, keys, moving)
  {
    hide MovingRoots, Visit;
    moving := [];
    var rest := keys;
    NoRootsYet(fwd);
    assert keys - rest == {};
    while rest != {}
      invariant rest <= keys
      invariant forall a, b :: a in keys && a !in rest && b in rest ==> a < b
      invariant MovingRoots(fwd, keys - rest, moving)
      decreases rest
    {
      var oldRoot := Least(rest);
      var newRoot := Visit(fwd, oldRoot);
      OneMoreRoot(fwd, keys - rest, oldRoot, moving);
      assert keys - (rest - {oldRoot}) == keys - rest + {oldRoot};
      if newRoot != oldRoot {
        moving := [(oldRoot, newRoot)] + moving;
      }
      rest := rest - {oldRoot};
    }
    assert keys - rest == keys;
  }

  lemma NoRootsYet(fwd: map<Addr, Addr>)
    ensures MovingRoots(fwd, {}, [])
  {
  }

  /** A key above all those seen so far goes to the front of the list if it moves. */
  lemma OneMoreRoot(fwd: map<Addr, Addr>, seen: set<Addr>, a: Addr, moving: seq<(Addr, Addr)>)
    requires MovingRoots(fwd, seen, moving) && forall b :: b in seen ==> b < a
    ensures MovingRoots(fwd, seen + {a}, if Visit(fwd, a) != a then [(a, Visit(fwd, a))] + moving else moving)
  {
    hide Visit, Listed;
    if Visit(fwd, a) != a {
      var entry := (a, Visit(fwd, a));
      assert ([entry] + moving)[0] == entry;
      forall b | b in seen + {a} && Visit(fwd, b) != b ensures Listed([entry] + moving, 0, b) {
        ListedAfter(moving, entry, b);
      }
    }
  }

  lemma ListedAfter(moving: seq<(Addr, Addr)>, entry: (Addr, Addr), b: Addr)
    requires Listed(moving, 0, b) || entry.0 == b
    ensures Listed([entry] + moving, 0, b)
  {
    if entry.0 == b {
      assert ([entry] + moving)[0].0 == b;
    } else {
      var i :| 0 <= i < |moving| && moving[i].0 == b;
      assert ([entry] + moving)[i + 1].0 == b;
    }
  }
}
