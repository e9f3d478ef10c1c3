/**
 FBC tuners are joined into chains by a previous and a next pointer. This module
 describes one list of frontends (the real or the simulated one) as a map from
 slot number to the mutable data of that slot; a pointer is the slot number of
 the frontend it points to, or NONE.

 The shape of the chains is stated locally, one frontend at a time (NodeOk).
 What the chains look like as a whole is then proved: who heads a leaf, that a
 chain is a strictly increasing walk, and that nothing but the set of leaves
 below each root decides every pointer in the list.
 */
module FbcChains {

  const NONE := -1

  /** An FBC leaf that is configured with unicable LNBs of its own is never linked. */
  datatype Kind = NotFbc | Root | Leaf | UnicableLeaf

  datatype Tuner = Tuner(kind: Kind, setId: int)

  /** What never changes: the slots in list order, the tuner in each slot, and each LNB's SatCR index. */
  datatype Config = Config(slots: seq<int>, tuner: map<int, Tuner>, satCr: seq<int>)

  datatype Fe = Fe(inuse: int, enabled: bool, prev: int, next: int)

  type Fes = map<int, Fe>

  /** LNB slot masks are ints with one bit per slot. */
  const MAX_SLOTS := 32

  ghost predicate ConfigOk(c: Config) {
    && (forall i :: i in c.tuner ==> 0 <= i < MAX_SLOTS)
    && (forall k :: 0 <= k < |c.slots| ==> c.slots[k] in c.tuner)
    && (forall i :: i in c.tuner && c.tuner[i].kind != NotFbc ==> c.tuner[i].setId != NONE)
  }

  predicate IsFbc(c: Config, i: int) {
    i in c.tuner && c.tuner[i].kind != NotFbc
  }

  predicate IsRoot(c: Config, i: int) {
    i in c.tuner && c.tuner[i].kind == Root
  }

  predicate IsLeaf(c: Config, i: int) {
    i in c.tuner && c.tuner[i].kind == Leaf
  }

  predicate Linked(L: Fes, i: int) {
    i in L && L[i].prev != NONE
  }

  ghost predicate SameKeys(c: Config, L: Fes) {
    forall i :: i in L <==> i in c.tuner
  }

  /** The local shape of an FBC chain around slot i. */
  ghost predicate NodeOk(c: Config, L: Fes, i: int)
    requires i in L
  {
    var p, n := L[i].prev, L[i].next;
    && (!IsFbc(c, i) ==> !IsFbc(c, p) && !IsFbc(c, n))
    && (IsFbc(c, i) && p != NONE ==> IsLeaf(c, i) && p in L && (IsRoot(c, p) || IsLeaf(c, p)) && L[p].next == i)
    && (IsFbc(c, i) && n != NONE ==>
          && n in L && IsLeaf(c, n) && L[n].prev == i
          && (IsRoot(c, i) || (IsLeaf(c, i) && p != NONE && i < n)))
    && (IsLeaf(c, i) ==> (L[i].enabled <==> p != NONE))
  }

  ghost predicate ChainsOk(c: Config, L: Fes) {
    && ConfigOk(c)
    && SameKeys(c, L)
    && forall i {:trigger NodeOk(c, L, i)} :: i in L ==> NodeOk(c, L, i)
  }

  /** A measure that falls on the way up a chain, because leaves are in slot order. */
  function Height(c: Config, i: int): (h: nat) {
    if IsLeaf(c, i) && i >= 0 then i + 1 else 0
  }

  /** getTop: follow the previous pointers. */
  ghost function Top(c: Config, L: Fes, i: int): (t: int)
    requires ChainsOk(c, L) && IsFbc(c, i)
    ensures IsFbc(c, t) && L[t].prev == NONE
    ensures Linked(L, i) || IsRoot(c, i) ==> IsRoot(c, t)
    ensures !Linked(L, i) ==> t == i
    decreases Height(c, i)
  {
    assert NodeOk(c, L, i);
    if L[i].prev == NONE then i
    else
      var p := L[i].prev;
      assert NodeOk(c, L, p);
      Top(c, L, p)
  }

  /** a is met on the way from j up to the top of its chain. */
  ghost predicate Above(c: Config, L: Fes, a: int, j: int)
    requires ChainsOk(c, L) && IsFbc(c, j)
    decreases Height(c, j)
  {
    assert NodeOk(c, L, j);
    a == j || (L[j].prev != NONE && (assert NodeOk(c, L, L[j].prev); Above(c, L, a, L[j].prev)))
  }

  lemma {:induction false} AboveStep(c: Config, L: Fes, a: int, j: int)
    requires ChainsOk(c, L) && IsFbc(c, j) && Above(c, L, a, j) && a != j
    ensures IsFbc(c, a) && IsLeaf(c, L[a].next) && Above(c, L, L[a].next, j)
    decreases Height(c, j)
  {
    assert NodeOk(c, L, j);
    var p := L[j].prev;
    assert NodeOk(c, L, p);
    if p != a {
      AboveStep(c, L, a, p);
    }
  }

  lemma {:induction false} AboveIsSmaller(c: Config, L: Fes, a: int, j: int)
    requires ChainsOk(c, L) && IsFbc(c, j) && Above(c, L, a, j)
    ensures IsFbc(c, a) && (IsLeaf(c, a) && IsLeaf(c, j) ==> a <= j)
    ensures IsLeaf(c, a) ==> IsLeaf(c, j)
    ensures Top(c, L, a) == Top(c, L, j)
    decreases Height(c, j)
  {
    assert NodeOk(c, L, j);
    if a != j {
      assert NodeOk(c, L, L[j].prev);
      AboveIsSmaller(c, L, a, L[j].prev);
    }
  }

  lemma {:induction false} TopIsAbove(c: Config, L: Fes, j: int)
    requires ChainsOk(c, L) && IsFbc(c, j)
    ensures Above(c, L, Top(c, L, j), j)
    decreases Height(c, j)
  {
    assert NodeOk(c, L, j);
    if L[j].prev != NONE {
      assert NodeOk(c, L, L[j].prev);
      TopIsAbove(c, L, L[j].prev);
    }
  }

  /** Two leaves below the same root lie on one line: the smaller slot is above the larger. */
  lemma {:induction false} SameTopIsOneLine(c: Config, L: Fes, m: int, j: int)
    requires ChainsOk(c, L) && IsLeaf(c, m) && IsLeaf(c, j) && Linked(L, m) && Linked(L, j)
    requires Top(c, L, m) == Top(c, L, j) && m <= j
    ensures Above(c, L, m, j)
    decreases m
  {
    assert NodeOk(c, L, m);
    var q := L[m].prev;
    assert NodeOk(c, L, q);
    if IsRoot(c, q) {
      TopIsAbove(c, L, j);
      AboveStep(c, L, q, j);
    } else {
      SameTopIsOneLine(c, L, q, j);
      AboveStep(c, L, q, j);
    }
  }

  /** The previous pointer of a leaf is its predecessor among the leaves below the same root. */
  lemma PrevIsPredecessor(c: Config, L: Fes, m: int, j: int)
    requires ChainsOk(c, L) && IsLeaf(c, m) && IsLeaf(c, j) && Linked(L, m) && Linked(L, j)
    requires Top(c, L, m) == Top(c, L, j) && m < j
    ensures IsLeaf(c, L[j].prev) && m <= L[j].prev < j
  {
    SameTopIsOneLine(c, L, m, j);
    assert NodeOk(c, L, j);
    assert NodeOk(c, L, L[j].prev);
    AboveIsSmaller(c, L, m, L[j].prev);
  }

  /** A and B link the same leaves below the same roots. */
  ghost predicate SameMembers(c: Config, A: Fes, B: Fes)
    requires ChainsOk(c, A) && ChainsOk(c, B)
  {
    forall i {:trigger Linked(A, i)} {:trigger Linked(B, i)} :: IsLeaf(c, i) ==>
      && (Linked(A, i) <==> Linked(B, i))
      && (Linked(A, i) ==> Top(c, A, i) == Top(c, B, i))
  }

  lemma SamePrev(c: Config, A: Fes, B: Fes, i: int)
    requires ChainsOk(c, A) && ChainsOk(c, B) && SameMembers(c, A, B) && IsFbc(c, i)
    ensures A[i].prev == B[i].prev
  {
    assert NodeOk(c, A, i) && NodeOk(c, B, i);
    if Linked(A, i) || Linked(B, i) {
      assert Linked(A, i) && Linked(B, i);
      var p, q := A[i].prev, B[i].prev;
      assert NodeOk(c, A, p) && NodeOk(c, B, q);
      assert Top(c, A, p) == Top(c, B, q);
      if IsLeaf(c, p) {
        assert Linked(A, p);
        PrevIsPredecessor(c, B, p, i);
      }
      if IsLeaf(c, q) {
        assert Linked(B, q);
        PrevIsPredecessor(c, A, q, i);
      }
    }
  }

  /** The leaves below each root decide every pointer of the list. */
  lemma ChainsAreDetermined(c: Config, A: Fes, B: Fes)
    requires ChainsOk(c, A) && ChainsOk(c, B) && SameMembers(c, A, B)
    ensures forall i :: IsFbc(c, i) ==> A[i].prev == B[i].prev && A[i].next == B[i].next
  {
    forall i | IsFbc(c, i)
      ensures A[i].prev == B[i].prev && A[i].next == B[i].next
    {
      SamePrev(c, A, B, i);
      assert NodeOk(c, A, i) && NodeOk(c, B, i);
      if A[i].next != NONE {
        SamePrev(c, A, B, A[i].next);
        assert NodeOk(c, B, A[i].next);
      }
      if B[i].next != NONE {
        SamePrev(c, A, B, B[i].next);
        assert NodeOk(c, A, B[i].next);
      }
    }
  }

  // ---------------------------------------------------------------- walking up and down

  /** xs follows the previous pointers to the top of a chain. */
  ghost predicate IsClimb(L: Fes, xs: seq<int>) {
    && |xs| > 0
    && (forall k :: 0 <= k < |xs| ==> xs[k] in L)
    && (forall k {:trigger xs[k]} :: 0 <= k < |xs| - 1 ==> L[xs[k]].prev == xs[k + 1])
    && L[xs[|xs| - 1]].prev == NONE
  }

  /** xs follows the next pointers to the end of a chain. */
  ghost predicate IsWalk(L: Fes, xs: seq<int>) {
    && |xs| > 0
    && (forall k :: 0 <= k < |xs| ==> xs[k] in L)
    && (forall k {:trigger xs[k]} :: 0 <= k < |xs| - 1 ==> L[xs[k]].next == xs[k + 1])
    && L[xs[|xs| - 1]].next == NONE
  }

  /** The way from i up to its top. */
  ghost function Climb(c: Config, L: Fes, i: int): (xs: seq<int>)
    requires ChainsOk(c, L) && IsFbc(c, i)
    ensures IsClimb(L, xs) && xs[0] == i && xs[|xs| - 1] == Top(c, L, i)
    decreases Height(c, i)
  {
    assert NodeOk(c, L, i);
    if L[i].prev == NONE then [i]
    else
      assert NodeOk(c, L, L[i].prev);
      [i] + Climb(c, L, L[i].prev)
  }

  /** A measure that falls on the way down a chain. */
  function Depth(c: Config, i: int): (d: nat) {
    if IsLeaf(c, i) && 0 <= i <= MAX_SLOTS then MAX_SLOTS - i else MAX_SLOTS + 1
  }

  /** The walk along the next pointers from i, i itself first. */
  ghost function Chain(c: Config, L: Fes, i: int): (xs: seq<int>)
    requires ChainsOk(c, L) && IsFbc(c, i)
    ensures |xs| > 0 && xs[0] == i && IsFbc(c, xs[|xs| - 1]) && L[xs[|xs| - 1]].next == NONE
    decreases Depth(c, i)
  {
    assert NodeOk(c, L, i);
    if L[i].next == NONE then [i] else [i] + Chain(c, L, L[i].next)
  }

  /** Every element after the first is a leaf, and points back to the one before it. */
  ghost predicate PointsBack(c: Config, L: Fes, xs: seq<int>) {
    forall k :: 0 < k < |xs| ==> IsLeaf(c, xs[k]) && xs[k] in L && L[xs[k]].prev == xs[k - 1]
  }

  /** The elements after the first are in strictly increasing order. */
  ghost predicate Ascending(xs: seq<int>) {
    forall j, k :: 0 < j < k < |xs| ==> xs[j] < xs[k]
  }

  /** A chain is a walk that can be taken back step by step, with its leaves in strictly increasing slot order. */
  lemma {:induction false} ChainIsWalk(c: Config, L: Fes, i: int)
    requires ChainsOk(c, L) && IsFbc(c, i)
    ensures IsWalk(L, Chain(c, L, i)) && PointsBack(c, L, Chain(c, L, i)) && Ascending(Chain(c, L, i))
    decreases Depth(c, i)
  {
    assert NodeOk(c, L, i);
    var n := L[i].next;
    if n != NONE {
      var ys := Chain(c, L, n);
      ChainIsWalk(c, L, n);
      FirstIsLeast(c, L, n);
      WalkGrows(c, L, i, ys);
      PointsBackGrows(c, L, i, ys);
      AscendingGrows(i, ys);
    }
  }

  lemma FirstIsLeast(c: Config, L: Fes, i: int)
    requires ChainsOk(c, L) && IsLeaf(c, i)
    ensures forall k :: 0 < k < |Chain(c, L, i)| ==> i < Chain(c, L, i)[k]
  {
    var ys := Chain(c, L, i);
    ChainGrows(c, L, i);
    forall k | 0 < k < |ys|
      ensures i < ys[k]
    {
      assert ys[1..][k - 1] == ys[k];
      assert ys[k] in ys && ys[k] in ys[1..];
    }
  }

  lemma WalkGrows(c: Config, L: Fes, i: int, ys: seq<int>)
    requires |ys| > 0 && i in L && L[i].next == ys[0] && IsWalk(L, ys)
    ensures IsWalk(L, [i] + ys)
  {
    var xs := [i] + ys;
    assert forall k :: 0 <= k < |ys| ==> xs[k + 1] == ys[k];
    forall k {:trigger xs[k]} | 0 <= k < |xs| - 1
      ensures L[xs[k]].next == xs[k + 1]
    {
      if k > 0 {
        var m := k - 1;
        assert xs[k] == ys[m];
      }
    }
  }

  lemma PointsBackGrows(c: Config, L: Fes, i: int, ys: seq<int>)
    requires |ys| > 0 && IsLeaf(c, ys[0]) && ys[0] in L && L[ys[0]].prev == i && PointsBack(c, L, ys)
    ensures PointsBack(c, L, [i] + ys)
  {
    var xs := [i] + ys;
    forall k | 0 < k < |xs|
      ensures IsLeaf(c, xs[k]) && xs[k] in L && L[xs[k]].prev == xs[k - 1]
    {
      var m := k - 1;
      assert xs[k] == ys[m];
      if m > 0 { assert xs[m] == ys[m - 1]; }
    }
  }

  lemma AscendingGrows(i: int, ys: seq<int>)
    requires |ys| > 0 && Ascending(ys) && forall k :: 0 < k < |ys| ==> ys[0] < ys[k]
    ensures Ascending([i] + ys)
  {
    var xs := [i] + ys;
    forall j, k | 0 < j < k < |xs|
      ensures xs[j] < xs[k]
    {
      var l, m := j - 1, k - 1;
      assert xs[j] == ys[l] && xs[k] == ys[m];
    }
  }

  /** Every leaf further down a chain has a larger slot. */
  lemma {:induction false} ChainGrows(c: Config, L: Fes, i: int)
    requires ChainsOk(c, L) && IsLeaf(c, i)
    ensures forall x :: x in Chain(c, L, i) ==> i <= x
    ensures i !in Chain(c, L, i)[1..]
    decreases Depth(c, i)
  {
    assert NodeOk(c, L, i);
    if L[i].next != NONE {
      ChainGrows(c, L, L[i].next);
      assert Chain(c, L, i)[1..] == Chain(c, L, L[i].next);
    }
  }

  lemma {:induction false} BelowIsInChain(c: Config, L: Fes, a: int, j: int)
    requires ChainsOk(c, L) && IsFbc(c, j) && Above(c, L, a, j)
    ensures IsFbc(c, a) && j in Chain(c, L, a)
    decreases Depth(c, a)
  {
    if a != j {
      AboveIsSmaller(c, L, a, j);
      AboveStep(c, L, a, j);
      assert NodeOk(c, L, a);
      BelowIsInChain(c, L, L[a].next, j);
    }
  }

  lemma {:induction false} InChainIsBelow(c: Config, L: Fes, a: int, j: int)
    requires ChainsOk(c, L) && IsFbc(c, a) && j in Chain(c, L, a)
    ensures IsFbc(c, j) && Top(c, L, a) == Top(c, L, j)
    decreases Depth(c, a)
  {
    assert NodeOk(c, L, a);
    if j != a {
      InChainIsBelow(c, L, L[a].next, j);
      assert NodeOk(c, L, L[a].next);
    }
  }

  /** The chain of a root holds the root and exactly the leaves whose top it is. */
  lemma ChainMembers(c: Config, L: Fes, r: int, j: int)
    requires ChainsOk(c, L) && IsRoot(c, r) && IsFbc(c, j)
    ensures j in Chain(c, L, r) <==> Top(c, L, j) == r
  {
    assert NodeOk(c, L, r);
    if j in Chain(c, L, r) {
      InChainIsBelow(c, L, r, j);
    }
    if Top(c, L, j) == r {
      TopIsAbove(c, L, j);
      BelowIsInChain(c, L, r, j);
    }
  }

  /** Where addLink inserts a leaf: the walk stops before the first larger slot. */
  ghost function InsertPoint(c: Config, L: Fes, p: int, leaf: int): (r: int)
    requires ChainsOk(c, L) && IsLeaf(c, leaf) && !Linked(L, leaf)
    requires IsRoot(c, p) || (IsLeaf(c, p) && Linked(L, p) && p < leaf)
    ensures IsRoot(c, r) || (IsLeaf(c, r) && Linked(L, r) && r < leaf)
    ensures L[r].next == NONE || L[r].next > leaf
    ensures Top(c, L, r) == Top(c, L, p)
    decreases Depth(c, p)
  {
    assert NodeOk(c, L, p);
    var n := L[p].next;
    if n == NONE || n > leaf then p
    else
      assert NodeOk(c, L, n);
      InsertPoint(c, L, n, leaf)
  }

  /** p can be followed by leaf. */
  ghost predicate IsPlace(c: Config, L: Fes, leaf: int, p: int)
    requires ChainsOk(c, L) && IsFbc(c, p)
  {
    && (IsLeaf(c, p) ==> Linked(L, p) && p < leaf)
    && (L[p].next == NONE || L[p].next > leaf)
  }

  /** There is only one such place below a root. */
  lemma {:induction false} InsertPointIsUnique(c: Config, L: Fes, top: int, leaf: int, p: int)
    requires ChainsOk(c, L) && IsLeaf(c, leaf) && !Linked(L, leaf) && IsRoot(c, top)
    requires IsFbc(c, p) && Top(c, L, p) == top && IsPlace(c, L, leaf, p)
    ensures InsertPoint(c, L, top, leaf) == p
  {
    var q := InsertPoint(c, L, top, leaf);
    assert NodeOk(c, L, p) && NodeOk(c, L, q) && NodeOk(c, L, top);
    assert Top(c, L, q) == Top(c, L, top) == top;
    if IsLeaf(c, p) && (IsRoot(c, q) || q < p) {
      PlaceIsBehind(c, L, leaf, q, p);
    } else if IsLeaf(c, q) && q != p {
      PlaceIsBehind(c, L, leaf, p, q);
    }
  }

  /** A place below another that can be a place is that place. */
  lemma {:induction false} PlaceIsBehind(c: Config, L: Fes, leaf: int, a: int, z: int)
    requires ChainsOk(c, L) && IsFbc(c, a) && IsLeaf(c, z) && Linked(L, z) && z < leaf
    requires Top(c, L, a) == Top(c, L, z) && (IsRoot(c, a) || (IsLeaf(c, a) && Linked(L, a) && a < z))
    ensures L[a].next != NONE && L[a].next <= z
  {
    assert NodeOk(c, L, a);
    if IsRoot(c, a) {
      TopIsAbove(c, L, z);
    } else {
      SameTopIsOneLine(c, L, a, z);
    }
    AboveStep(c, L, a, z);
    AboveIsSmaller(c, L, L[a].next, z);
  }

  /** One turn of addLink's search loop: go on to the next frontend or stop. */
  lemma InsertPointStep(c: Config, L: Fes, p: int, leaf: int) returns (go: bool)
    requires ChainsOk(c, L) && IsLeaf(c, leaf) && !Linked(L, leaf)
    requires IsRoot(c, p) || (IsLeaf(c, p) && Linked(L, p) && p < leaf)
    ensures p in L && (go <==> L[p].next != NONE && L[p].next <= leaf)
    ensures !go ==> InsertPoint(c, L, p, leaf) == p
    ensures go ==> var n := L[p].next;
                   && IsLeaf(c, n) && Linked(L, n) && n < leaf && Depth(c, n) < Depth(c, p)
                   && InsertPoint(c, L, p, leaf) == InsertPoint(c, L, n, leaf)
  {
    assert NodeOk(c, L, p);
    if L[p].next != NONE { assert NodeOk(c, L, L[p].next); }
    go := L[p].next != NONE && L[p].next <= leaf;
  }

  // ---------------------------------------------------------------- pointer updates

  /** connectLink, assignment by assignment. */
  function Connect(L: Fes, leaf: int, prev: int, next: int): (M: Fes)
    requires leaf in L && prev in L && (next == NONE || next in L)
    ensures forall i :: i in M <==> i in L
  {
    var L1 := L[prev := L[prev].(next := leaf)];
    var L2 := L1[leaf := L1[leaf].(prev := prev)];
    if next == NONE then L2
    else
      var L3 := L2[leaf := L2[leaf].(next := next)];
      L3[next := L3[next].(prev := leaf)]
  }

  /** disconnectLink, assignment by assignment. */
  function Disconnect(L: Fes, leaf: int, prev: int, next: int): (M: Fes)
    requires leaf in L && prev in L && (next == NONE || next in L)
    ensures forall i :: i in M <==> i in L
  {
    if next != NONE then
      var L1 := L[prev := L[prev].(next := next)];
      var L2 := L1[next := L1[next].(prev := prev)];
      var L3 := L2[leaf := L2[leaf].(prev := NONE)];
      L3[leaf := L3[leaf].(next := NONE)]
    else
      var L1 := L[prev := L[prev].(next := NONE)];
      L1[leaf := L1[leaf].(prev := NONE)]
  }

  function SetEnabled(L: Fes, i: int, on: bool): (M: Fes)
    requires i in L
    ensures forall i :: i in M <==> i in L
  {
    L[i := L[i].(enabled := on)]
  }

  function AddUse(L: Fes, i: int, d: int): (M: Fes)
    requires i in L
    ensures forall i :: i in M <==> i in L
  {
    L[i := L[i].(inuse := L[i].inuse + d)]
  }

  /** Insert an unlinked leaf below top at its place in slot order, and enable it. */
  ghost function Insert(c: Config, L: Fes, leaf: int, top: int): (M: Fes)
    requires ChainsOk(c, L) && IsLeaf(c, leaf) && !Linked(L, leaf) && IsRoot(c, top)
    ensures forall i :: i in M <==> i in L
  {
    var p := InsertPoint(c, L, top, leaf);
    assert NodeOk(c, L, p);
    SetEnabled(Connect(L, leaf, p, L[p].next), leaf, true)
  }

  /** Take a linked leaf out of its chain, and disable it. */
  ghost function Remove(c: Config, L: Fes, leaf: int): (M: Fes)
    requires ChainsOk(c, L) && IsLeaf(c, leaf) && Linked(L, leaf)
    ensures forall i :: i in M <==> i in L
  {
    assert NodeOk(c, L, leaf);
    SetEnabled(Disconnect(L, leaf, L[leaf].prev, L[leaf].next), leaf, false)
  }

  lemma ConnectUses(L: Fes, leaf: int, prev: int, next: int)
    requires leaf in L && prev in L && (next == NONE || next in L)
    ensures forall i :: i in L ==> Connect(L, leaf, prev, next)[i].inuse == L[i].inuse
    ensures forall i :: i in L ==> Disconnect(L, leaf, prev, next)[i].inuse == L[i].inuse
  {
  }

  /** M is L with leaf between p and n, frontend by frontend. */
  ghost predicate IsInserted(c: Config, L: Fes, M: Fes, leaf: int, p: int, n: int) {
    && SameKeys(c, L) && SameKeys(c, M) && IsLeaf(c, leaf) && IsFbc(c, p) && p != leaf && n != leaf && p != n
    && (n != NONE ==> IsFbc(c, n))
    && M[leaf] == Fe(L[leaf].inuse, true, p, n)
    && M[p] == L[p].(next := leaf)
    && (n != NONE ==> M[n] == L[n].(prev := leaf))
    && forall i {:trigger M[i]} {:trigger L[i]} :: i in L && i != leaf && i != p && i != n ==> M[i] == L[i]
  }

  /** M is L with leaf taken out from between p and n, frontend by frontend. */
  ghost predicate IsRemoved(c: Config, L: Fes, M: Fes, leaf: int, p: int, n: int) {
    && SameKeys(c, L) && SameKeys(c, M) && IsLeaf(c, leaf) && IsFbc(c, p) && p != leaf && n != leaf && p != n
    && (n != NONE ==> IsFbc(c, n))
    && M[leaf] == Fe(L[leaf].inuse, false, NONE, NONE)
    && M[p] == L[p].(next := n)
    && (n != NONE ==> M[n] == L[n].(prev := p))
    && forall i {:trigger M[i]} {:trigger L[i]} :: i in L && i != leaf && i != p && i != n ==> M[i] == L[i]
  }

  lemma InsertIs(c: Config, L: Fes, leaf: int, top: int)
    requires ChainsOk(c, L) && IsLeaf(c, leaf) && !Linked(L, leaf) && IsRoot(c, top)
    ensures var p := InsertPoint(c, L, top, leaf);
            p in L && IsInserted(c, L, Insert(c, L, leaf, top), leaf, p, L[p].next)
  {
    var p := InsertPoint(c, L, top, leaf);
    assert NodeOk(c, L, p) && NodeOk(c, L, leaf);
    if L[p].next != NONE { assert NodeOk(c, L, L[p].next); }
  }

  lemma RemoveIs(c: Config, L: Fes, leaf: int)
    requires ChainsOk(c, L) && IsLeaf(c, leaf) && Linked(L, leaf)
    ensures leaf in L && IsRemoved(c, L, Remove(c, L, leaf), leaf, L[leaf].prev, L[leaf].next)
  {
    assert NodeOk(c, L, leaf) && NodeOk(c, L, L[leaf].prev);
    if L[leaf].next != NONE { assert NodeOk(c, L, L[leaf].next); }
  }

  lemma InsertedShape(c: Config, L: Fes, M: Fes, leaf: int, p: int, n: int)
    requires ChainsOk(c, L) && IsInserted(c, L, M, leaf, p, n)
    requires !Linked(L, leaf) && L[p].next == n && (n == NONE || leaf < n)
    requires IsRoot(c, p) || (IsLeaf(c, p) && Linked(L, p) && p < leaf)
    ensures ChainsOk(c, M)
  {
    assert NodeOk(c, L, p) && NodeOk(c, L, leaf);
    if n != NONE { assert NodeOk(c, L, n); }
    forall i | i in M
      ensures NodeOk(c, M, i)
    {
      assert NodeOk(c, L, i);
      if L[i].prev in L { assert NodeOk(c, L, L[i].prev); }
      if L[i].next in L { assert NodeOk(c, L, L[i].next); }
    }
  }

  lemma RemovedShape(c: Config, L: Fes, M: Fes, leaf: int, p: int, n: int)
    requires ChainsOk(c, L) && IsRemoved(c, L, M, leaf, p, n)
    requires p == L[leaf].prev && n == L[leaf].next
    ensures ChainsOk(c, M)
  {
    assert NodeOk(c, L, leaf) && NodeOk(c, L, p);
    if n != NONE { assert NodeOk(c, L, n); }
    forall i | i in M
      ensures NodeOk(c, M, i)
    {
      assert NodeOk(c, L, i);
      if L[i].prev in L { assert NodeOk(c, L, L[i].prev); }
      if L[i].next in L { assert NodeOk(c, L, L[i].next); }
    }
  }

  lemma InsertKeepsShape(c: Config, L: Fes, leaf: int, top: int)
    requires ChainsOk(c, L) && IsLeaf(c, leaf) && !Linked(L, leaf) && IsRoot(c, top)
    ensures ChainsOk(c, Insert(c, L, leaf, top))
  {
    InsertIs(c, L, leaf, top);
    var p := InsertPoint(c, L, top, leaf);
    InsertedShape(c, L, Insert(c, L, leaf, top), leaf, p, L[p].next);
  }

  lemma RemoveKeepsShape(c: Config, L: Fes, leaf: int)
    requires ChainsOk(c, L) && IsLeaf(c, leaf) && Linked(L, leaf)
    ensures ChainsOk(c, Remove(c, L, leaf))
  {
    RemoveIs(c, L, leaf);
    RemovedShape(c, L, Remove(c, L, leaf), leaf, L[leaf].prev, L[leaf].next);
  }

  /** Inserting a leaf puts it below its root and moves no other leaf. */
  lemma {:induction false} InsertTops(c: Config, L: Fes, leaf: int, top: int, i: int)
    requires ChainsOk(c, L) && IsLeaf(c, leaf) && !Linked(L, leaf) && IsRoot(c, top) && IsFbc(c, i)
    requires ChainsOk(c, Insert(c, L, leaf, top))
    ensures Top(c, Insert(c, L, leaf, top), i) == if i == leaf then top else Top(c, L, i)
    decreases Height(c, i)
  {
    var M := Insert(c, L, leaf, top);
    var p := InsertPoint(c, L, top, leaf);
    assert NodeOk(c, L, p) && NodeOk(c, L, leaf) && NodeOk(c, L, i) && NodeOk(c, M, i);
    assert NodeOk(c, L, top);
    if i == leaf {
      InsertTops(c, L, leaf, top, p);
    } else if L[p].next == i {
      InsertTops(c, L, leaf, top, leaf);
      assert Top(c, L, i) == Top(c, L, p) == top;
    } else if L[i].prev != NONE {
      assert NodeOk(c, L, L[i].prev);
      InsertTops(c, L, leaf, top, L[i].prev);
    }
  }

  /** Removing a leaf moves no other leaf. */
  lemma {:induction false} RemoveTops(c: Config, L: Fes, leaf: int, i: int)
    requires ChainsOk(c, L) && IsLeaf(c, leaf) && Linked(L, leaf) && IsFbc(c, i)
    requires ChainsOk(c, Remove(c, L, leaf))
    ensures Top(c, Remove(c, L, leaf), i) == if i == leaf then leaf else Top(c, L, i)
    decreases Height(c, i)
  {
    var M := Remove(c, L, leaf);
    var p := L[leaf].prev;
    assert NodeOk(c, L, leaf) && NodeOk(c, L, p) && NodeOk(c, L, i) && NodeOk(c, M, i);
    if i == leaf {
    } else if L[leaf].next == i {
      assert NodeOk(c, M, p);
      RemoveTops(c, L, leaf, p);
      assert Top(c, L, i) == Top(c, L, leaf) == Top(c, L, p);
    } else if L[i].prev != NONE {
      assert NodeOk(c, L, L[i].prev);
      RemoveTops(c, L, leaf, L[i].prev);
    }
  }

  /** Inserting or removing a leaf leaves use counts, other frontends' enabled flags and non-FBC frontends alone. */
  ghost predicate OnlyLinksDiffer(c: Config, L: Fes, M: Fes, leaf: int) {
    && (forall i :: i in M <==> i in L)
    && (forall i :: i in L ==> M[i].inuse == L[i].inuse)
    && (forall i :: i in L && i != leaf ==> M[i].enabled == L[i].enabled)
    && (forall i :: i in L && !IsFbc(c, i) ==> M[i] == L[i])
  }

  lemma InsertFrame(c: Config, L: Fes, leaf: int, top: int)
    requires ChainsOk(c, L) && IsLeaf(c, leaf) && !Linked(L, leaf) && IsRoot(c, top)
    ensures OnlyLinksDiffer(c, L, Insert(c, L, leaf, top), leaf)
  {
    InsertIs(c, L, leaf, top);
  }

  lemma RemoveFrame(c: Config, L: Fes, leaf: int)
    requires ChainsOk(c, L) && IsLeaf(c, leaf) && Linked(L, leaf)
    ensures OnlyLinksDiffer(c, L, Remove(c, L, leaf), leaf)
  {
    RemoveIs(c, L, leaf);
  }

  lemma InsertLinks(c: Config, L: Fes, leaf: int, top: int)
    requires ChainsOk(c, L) && IsLeaf(c, leaf) && !Linked(L, leaf) && IsRoot(c, top)
    ensures forall i :: Linked(Insert(c, L, leaf, top), i) <==> i == leaf || Linked(L, i)
  {
    InsertIs(c, L, leaf, top);
    var p := InsertPoint(c, L, top, leaf);
    if L[p].next != NONE { assert NodeOk(c, L, p) && NodeOk(c, L, L[p].next); }
  }

  lemma RemoveLinks(c: Config, L: Fes, leaf: int)
    requires ChainsOk(c, L) && IsLeaf(c, leaf) && Linked(L, leaf)
    ensures forall i :: Linked(Remove(c, L, leaf), i) <==> i != leaf && Linked(L, i)
  {
    RemoveIs(c, L, leaf);
    assert NodeOk(c, L, leaf);
    if L[leaf].next != NONE { assert NodeOk(c, L, L[leaf].next); }
  }

  /** Use counts play no part in the shape of the chains. */
  lemma ShapeIgnoresUses(c: Config, L: Fes, M: Fes)
    requires ChainsOk(c, L) && SameKeys(c, M)
    requires forall k :: k in L ==> M[k] == L[k].(inuse := M[k].inuse)
    ensures ChainsOk(c, M)
  {
    forall k | k in M
      ensures NodeOk(c, M, k)
    {
      assert NodeOk(c, L, k);
    }
  }

  lemma {:induction false} TopsIgnoreUses(c: Config, L: Fes, M: Fes, i: int)
    requires ChainsOk(c, L) && ChainsOk(c, M) && IsFbc(c, i)
    requires forall k :: k in L ==> M[k] == L[k].(inuse := M[k].inuse)
    ensures Top(c, M, i) == Top(c, L, i)
    decreases Height(c, i)
  {
    assert NodeOk(c, L, i);
    if L[i].prev != NONE {
      assert NodeOk(c, L, L[i].prev);
      TopsIgnoreUses(c, L, M, L[i].prev);
    }
  }
}
