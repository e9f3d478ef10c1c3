/**
 The real and the simulated frontend list together with the slot masks of the
 LNBs, which both lists share. The invariant ties the three together; linking,
 unlinking and counting uses keep it. Real steps are taken only while no
 simulated frontend is in use; a simulation episode is a run of simulated steps
 that releases everything it took.
 */
module FbcStates {
  import opened FbcChains

  datatype State = State(actual: Fes, sim: Fes, lnb: seq<set<int>>)

  function List(s: State, simulate: bool): (L: Fes) {
    if simulate then s.sim else s.actual
  }

  function WithList(s: State, simulate: bool, L: Fes): (t: State) {
    if simulate then s.(sim := L) else s.(actual := L)
  }

  /** Frontend i of the list is not in use. */
  predicate Unused(s: State, simulate: bool, i: int) {
    i in List(s, simulate) && List(s, simulate)[i].inuse == 0
  }

  /** Frontend i of the list is in use. */
  predicate Busy(s: State, simulate: bool, i: int) {
    i in List(s, simulate) && List(s, simulate)[i].inuse != 0
  }

  // ---------------------------------------------------------------- slot masks

  /** One LNB's mask after slot dest has been given, or has lost, what slot src may use. */
  function MaskAfter(mask: set<int>, dest: int, src: int, remove: bool): (m: set<int>) {
    if src !in mask then mask else if remove then mask - {dest} else mask + {dest}
  }

  /** updateLNBSlotMask: copy or clear slot dest in every LNB that slot src may use. */
  function UpdateMask(lnb: seq<set<int>>, dest: int, src: int, remove: bool): (m: seq<set<int>>)
    ensures |m| == |lnb| && forall k :: 0 <= k < |lnb| ==> m[k] == MaskAfter(lnb[k], dest, src, remove)
  {
    seq(|lnb|, k requires 0 <= k < |lnb| => MaskAfter(lnb[k], dest, src, remove))
  }

  ghost predicate SameBits(lnb: seq<set<int>>, i: int, j: int) {
    forall k :: 0 <= k < |lnb| ==> (i in lnb[k] <==> j in lnb[k])
  }

  ghost predicate NoBits(lnb: seq<set<int>>, i: int) {
    forall k :: 0 <= k < |lnb| ==> i !in lnb[k]
  }

  /** Slot i has the same bits in both masks. */
  ghost predicate KeepsBits(lnb: seq<set<int>>, m: seq<set<int>>, i: int) {
    |lnb| == |m| && forall k :: 0 <= k < |lnb| ==> (i in lnb[k] <==> i in m[k])
  }

  /** isUnicable looks at the first LNB, from the k-th on, that slot i may use. */
  function UnicableFrom(satCr: seq<int>, lnb: seq<set<int>>, i: int, k: nat): (u: bool)
    requires |satCr| == |lnb| && k <= |lnb|
    decreases |lnb| - k
  {
    if k == |lnb| then false
    else if i in lnb[k] then satCr[k] != NONE
    else UnicableFrom(satCr, lnb, i, k + 1)
  }

  function IsUnicable(c: Config, lnb: seq<set<int>>, i: int): (u: bool)
    requires |c.satCr| == |lnb|
  {
    UnicableFrom(c.satCr, lnb, i, 0)
  }

  lemma {:induction false} UnicableFollowsBits(satCr: seq<int>, lnb: seq<set<int>>, m: seq<set<int>>, i: int, j: int,
      k: nat)
    requires |satCr| == |lnb| == |m| && k <= |lnb|
    requires forall x :: k <= x < |lnb| ==> (i in lnb[x] <==> j in m[x])
    ensures UnicableFrom(satCr, lnb, i, k) == UnicableFrom(satCr, m, j, k)
    decreases |lnb| - k
  {
    if k < |lnb| && i !in lnb[k] {
      UnicableFollowsBits(satCr, lnb, m, i, j, k + 1);
    }
  }

  lemma {:induction false} NoBitsIsNotUnicable(c: Config, lnb: seq<set<int>>, i: int, k: nat)
    requires |c.satCr| == |lnb| && k <= |lnb| && NoBits(lnb, i)
    ensures !UnicableFrom(c.satCr, lnb, i, k)
    decreases |lnb| - k
  {
    if k < |lnb| {
      NoBitsIsNotUnicable(c, lnb, i, k + 1);
    }
  }

  /** A slot is unicable exactly if the first LNB that it may use has a SatCR index. */
  lemma {:induction false} UnicableMeans(satCr: seq<int>, lnb: seq<set<int>>, i: int, k: nat)
    requires |satCr| == |lnb| && k <= |lnb|
    ensures UnicableFrom(satCr, lnb, i, k) <==>
      exists j :: k <= j < |lnb| && i in lnb[j] && satCr[j] != -1 && forall m :: k <= m < j ==> i !in lnb[m]
    decreases |lnb| - k
  {
    if k < |lnb| {
      UnicableMeans(satCr, lnb, i, k + 1);
    }
  }

  // ---------------------------------------------------------------- the invariant

  /** What holds of leaf i: its two links agree, and its LNB bits are those of its root. */
  ghost predicate LeafOk(c: Config, s: State, i: int)
    requires ChainsOk(c, s.actual) && ChainsOk(c, s.sim) && |s.lnb| == |c.satCr| && IsLeaf(c, i)
  {
    && (Linked(s.actual, i) ==> Linked(s.sim, i) && Top(c, s.sim, i) == Top(c, s.actual, i))
    && (Linked(s.sim, i) ==>
          var t := Top(c, s.sim, i);
          c.tuner[t].setId == c.tuner[i].setId && !IsUnicable(c, s.lnb, t) && SameBits(s.lnb, i, t))
    && (!Linked(s.sim, i) ==> NoBits(s.lnb, i))
  }

  /** The part of the invariant that does not depend on use counts. */
  ghost predicate Structure(c: Config, s: State) {
    && ChainsOk(c, s.actual) && ChainsOk(c, s.sim) && |s.lnb| == |c.satCr|
    && (forall i {:trigger LeafOk(c, s, i)} :: IsLeaf(c, i) ==> LeafOk(c, s, i))
    && (forall i {:trigger IsUnicable(c, s.lnb, i)} ::
          i in c.tuner && c.tuner[i].kind == UnicableLeaf ==> IsUnicable(c, s.lnb, i))
  }

  ghost predicate UsesOk(c: Config, s: State, i: int)
    requires i in s.actual && i in s.sim
  {
    && s.actual[i].inuse >= 0 && s.sim[i].inuse >= 0
    && (IsLeaf(c, i) ==> (Linked(s.actual, i) <==> s.actual[i].inuse > 0))
    && (IsLeaf(c, i) ==> (Linked(s.sim, i) <==> s.actual[i].inuse > 0 || s.sim[i].inuse > 0))
  }

  ghost predicate Inv(c: Config, s: State) {
    && Structure(c, s)
    && forall i {:trigger UsesOk(c, s, i)} :: i in c.tuner ==> UsesOk(c, s, i)
  }

  /** No simulated frontend is in use. */
  ghost predicate AtRest(s: State) {
    forall i :: i in s.sim ==> s.sim[i].inuse == 0
  }

  /** The start: FBC leaves are unlinked and disabled and have no LNB bits; nothing is in use. */
  ghost predicate Initial(c: Config, s: State) {
    && ConfigOk(c) && |s.lnb| == |c.satCr|
    && SameKeys(c, s.actual) && SameKeys(c, s.sim)
    && (forall i, simulate {:trigger List(s, simulate)[i]} :: i in c.tuner ==>
          var f := List(s, simulate)[i];
          && f.inuse == 0
          && (IsFbc(c, i) ==> f.prev == NONE && f.next == NONE)
          && (!IsFbc(c, i) ==> !IsFbc(c, f.prev) && !IsFbc(c, f.next))
          && (IsLeaf(c, i) ==> !f.enabled))
    && (forall i :: IsLeaf(c, i) ==> NoBits(s.lnb, i))
    && (forall i {:trigger IsUnicable(c, s.lnb, i)} ::
          i in c.tuner && c.tuner[i].kind == UnicableLeaf ==> IsUnicable(c, s.lnb, i))
  }

  lemma InitialIsInv(c: Config, s: State)
    requires Initial(c, s)
    ensures Inv(c, s) && AtRest(s)
  {
    forall simulate
      ensures ChainsOk(c, List(s, simulate))
    {
      var L := List(s, simulate);
      forall i | i in L ensures NodeOk(c, L, i) {
        var f := List(s, simulate)[i];
      }
    }
    assert s.actual == List(s, false) && s.sim == List(s, true);
    forall i | i in c.tuner
      ensures UsesOk(c, s, i) && (IsLeaf(c, i) ==> LeafOk(c, s, i))
    {
      var f, g := List(s, false)[i], List(s, true)[i];
    }
  }

  /** The two lists agree pointer for pointer, and leaf for leaf in their enabled flags. */
  ghost predicate Mirrored(c: Config, s: State) {
    && SameKeys(c, s.actual) && SameKeys(c, s.sim)
    && (forall i :: IsFbc(c, i) ==> s.actual[i].prev == s.sim[i].prev && s.actual[i].next == s.sim[i].next)
    && (forall i :: IsLeaf(c, i) ==> s.actual[i].enabled == s.sim[i].enabled)
  }

  /** At rest the simulated chains mirror the real ones slot for slot. */
  lemma MirrorAtRest(c: Config, s: State)
    requires Inv(c, s) && AtRest(s)
    ensures Mirrored(c, s)
  {
    forall i | IsLeaf(c, i)
      ensures Linked(s.actual, i) <==> Linked(s.sim, i)
      ensures Linked(s.actual, i) ==> Top(c, s.actual, i) == Top(c, s.sim, i)
    {
      assert LeafOk(c, s, i) && UsesOk(c, s, i);
    }
    ChainsAreDetermined(c, s.actual, s.sim);
    forall i | IsLeaf(c, i)
      ensures s.actual[i].enabled == s.sim[i].enabled
    {
      assert NodeOk(c, s.actual, i) && NodeOk(c, s.sim, i);
    }
  }

  lemma InvIsBare(c: Config, s: State, simulate: bool)
    requires Inv(c, s) && (simulate || AtRest(s))
    ensures Bare(c, s, simulate)
  {
    forall i | IsLeaf(c, i)
      ensures !simulate ==> (Linked(s.sim, i) <==> Linked(s.actual, i))
    {
      assert UsesOk(c, s, i);
    }
    StructureIsBare(c, s, simulate);
  }

  /** A linked leaf is never unicable, so unLink never skips it for that reason. */
  lemma LinkedIsNotUnicable(c: Config, s: State, i: int)
    requires Structure(c, s) && IsLeaf(c, i)
    ensures !IsUnicable(c, s.lnb, i)
  {
    assert LeafOk(c, s, i);
    if Linked(s.sim, i) {
      UnicableFollowsBits(c.satCr, s.lnb, s.lnb, i, Top(c, s.sim, i), 0);
    } else {
      NoBitsIsNotUnicable(c, s.lnb, i, 0);
    }
  }

  /** canLink holds of exactly the leaves that are not linked. */
  predicate CanLink(c: Config, s: State, simulate: bool, i: int)
    requires i in List(s, simulate) && |c.satCr| == |s.lnb|
  {
    var f := List(s, simulate)[i];
    !(IsRoot(c, i) || f.prev != NONE || f.next != NONE || IsUnicable(c, s.lnb, i))
  }

  lemma CanLinkExactly(c: Config, s: State, simulate: bool, i: int)
    requires Structure(c, s) && IsFbc(c, i)
    ensures CanLink(c, s, simulate, i) <==> IsLeaf(c, i) && !Linked(List(s, simulate), i)
  {
    assert NodeOk(c, List(s, simulate), i);
    if IsLeaf(c, i) {
      LinkedIsNotUnicable(c, s, i);
    }
  }

  /** No leaf that can be linked in the list has any LNB bits. */
  ghost predicate Bare(c: Config, s: State, simulate: bool) {
    forall i {:trigger Linked(List(s, simulate), i)} :: IsLeaf(c, i) && !Linked(List(s, simulate), i) ==>
      NoBits(s.lnb, i)
  }

  /** That is so of the simulated list always, and of the real list while both link the same leaves. */
  lemma StructureIsBare(c: Config, s: State, simulate: bool)
    requires Structure(c, s)
    requires simulate || forall i :: IsLeaf(c, i) ==> (Linked(s.sim, i) <==> Linked(s.actual, i))
    ensures Bare(c, s, simulate)
  {
    forall i | IsLeaf(c, i) && !Linked(List(s, simulate), i)
      ensures NoBits(s.lnb, i)
    {
      assert LeafOk(c, s, i);
    }
  }

  // ---------------------------------------------------------------- link and unlink

  /** The part of addLink after its guard. Adding to the real list adds to the simulated one as well. */
  ghost function AddLink(c: Config, s: State, simulate: bool, leaf: int, top: int): (t: State)
    requires Structure(c, s) && IsLeaf(c, leaf) && IsRoot(c, top) && !Linked(List(s, simulate), leaf)
  {
    var L := List(s, simulate);
    var p := InsertPoint(c, L, top, leaf);
    assert NodeOk(c, L, p);
    var n := L[p].next;
    var s1 := WithList(s, simulate, Insert(c, L, leaf, top));
    var s2 := if simulate then s1 else s1.(sim := SetEnabled(Connect(s.sim, leaf, p, n), leaf, true));
    s2.(lnb := UpdateMask(s.lnb, leaf, top, false))
  }

  ghost predicate IsUsed(s: State, i: int)
    requires i in s.actual && i in s.sim
  {
    s.actual[i].inuse > 0 || s.sim[i].inuse > 0
  }

  /** unLink, with its guard. Removing from the real list removes from the simulated one as well. */
  ghost function Unlink(c: Config, s: State, simulate: bool, leaf: int): (t: State)
    requires Structure(c, s) && IsFbc(c, leaf)
  {
    var L := List(s, simulate);
    if IsRoot(c, leaf) || IsUsed(s, leaf) || IsUnicable(c, s.lnb, leaf) || !Linked(L, leaf) then s
    else
      assert NodeOk(c, L, leaf);
      var p, n := L[leaf].prev, L[leaf].next;
      var s1 := WithList(s, simulate, Remove(c, L, leaf));
      var s2 := if simulate then s1 else s1.(sim := SetEnabled(Disconnect(s.sim, leaf, p, n), leaf, false));
      RemoveKeepsShape(c, L, leaf);
      s2.(lnb := UpdateMask(s.lnb, leaf, Top(c, Remove(c, L, leaf), p), true))
  }

  /** A root that leaf may be linked below, in the state s. */
  predicate Qualifies(c: Config, s: State, simulate: bool, leaf: int, top: int)
    requires |c.satCr| == |s.lnb| && leaf in c.tuner
  {
    && IsRoot(c, top) && top in List(s, simulate)
    && List(s, simulate)[top].enabled
    && c.tuner[leaf].setId == c.tuner[top].setId
    && List(s, simulate)[top].inuse != 0
    && List(s, simulate)[top].prev == NONE
    && !IsUnicable(c, s.lnb, top)
  }

  /**
   addLink in the real list finds the place in the simulated chain as it is in the real one, or the leaf already
   there.
   */
  ghost predicate AddsAlike(c: Config, s: State, leaf: int, top: int)
    requires Structure(c, s) && IsLeaf(c, leaf) && IsRoot(c, top) && !Linked(s.actual, leaf)
  {
    var p := InsertPoint(c, s.actual, top, leaf);
    assert NodeOk(c, s.actual, p);
    var n := s.actual[p].next;
    if Linked(s.sim, leaf) then s.sim[p].next == leaf && (n == NONE || s.sim[leaf].next == n)
    else s.sim[p].next == n
  }

  /** unLink in the real list finds the neighbours of the leaf in the simulated chain as they are in the real one. */
  predicate RemovesAlike(s: State, leaf: int)
    requires leaf in s.actual && leaf in s.sim
  {
    s.sim[leaf].prev == s.actual[leaf].prev && s.sim[leaf].next == s.actual[leaf].next
  }

  /** What a real release of fe asks of the simulated list: the last use of a leaf is the last one there too. */
  ghost predicate ReleasesAlike(c: Config, s: State, fe: int)
    requires fe in s.actual && fe in s.sim
  {
    IsLeaf(c, fe) && s.actual[fe].inuse == 1 ==> s.sim[fe].inuse == 0 && RemovesAlike(s, fe)
  }

  /** While both lists agree in every pointer, real steps find the same places in both. */
  lemma MirroredIsAlike(c: Config, s: State, leaf: int, top: int)
    requires Structure(c, s) && Mirrored(c, s) && IsLeaf(c, leaf)
    ensures RemovesAlike(s, leaf)
    ensures IsRoot(c, top) && !Linked(s.actual, leaf) ==> !Linked(s.sim, leaf) && AddsAlike(c, s, leaf, top)
  {
    if IsRoot(c, top) && !Linked(s.actual, leaf) {
      var p := InsertPoint(c, s.actual, top, leaf);
      assert IsFbc(c, p) && !Linked(s.sim, leaf);
    }
  }

  /** Where the places are alike, addLink inserts at the right place in the simulated chain too. */
  lemma RealAddLinkMirrors(c: Config, s: State, leaf: int, top: int)
    requires Structure(c, s) && IsLeaf(c, leaf) && IsRoot(c, top) && !Linked(s.actual, leaf)
    requires !Linked(s.sim, leaf) && AddsAlike(c, s, leaf, top)
    ensures AddLink(c, s, false, leaf, top).sim == Insert(c, s.sim, leaf, top)
  {
    var p := InsertPoint(c, s.actual, top, leaf);
    assert NodeOk(c, s.actual, p) && NodeOk(c, s.actual, top) && NodeOk(c, s.sim, p);
    if IsLeaf(c, p) {
      assert LeafOk(c, s, p);
    }
    InsertPointIsUnique(c, s.sim, top, leaf, p);
  }

  lemma RealUnlinkMirrors(c: Config, s: State, leaf: int)
    requires Structure(c, s) && IsLeaf(c, leaf) && Linked(s.actual, leaf) && !IsUsed(s, leaf) && RemovesAlike(s, leaf)
    ensures Linked(s.sim, leaf) && Unlink(c, s, false, leaf).sim == Remove(c, s.sim, leaf)
  {
    LinkedIsNotUnicable(c, s, leaf);
    assert NodeOk(c, s.actual, leaf) && NodeOk(c, s.sim, leaf);
  }

  /** How the masks change when slot dest gains or loses the bits of slot src. */
  lemma UpdateMaskBits(lnb: seq<set<int>>, dest: int, src: int, remove: bool)
    ensures var m := UpdateMask(lnb, dest, src, remove);
      && (forall i :: i != dest ==> KeepsBits(lnb, m, i))
      && (forall k :: 0 <= k < |lnb| ==>
            (dest in m[k] <==> if remove then dest in lnb[k] && src !in lnb[k] else dest in lnb[k] || src in lnb[k]))
      && (remove && SameBits(lnb, dest, src) ==> NoBits(m, dest))
      && (!remove && NoBits(lnb, dest) ==> SameBits(m, dest, src))
  {
  }

  lemma UnicableKept(c: Config, lnb: seq<set<int>>, m: seq<set<int>>, i: int)
    requires |c.satCr| == |lnb| && KeepsBits(lnb, m, i)
    ensures IsUnicable(c, lnb, i) == IsUnicable(c, m, i)
  {
    UnicableFollowsBits(c.satCr, lnb, m, i, i, 0);
  }

  lemma ConnectedAlready(L: Fes, leaf: int, p: int, n: int)
    requires leaf in L && p in L && (n == NONE || n in L)
    requires L[p].next == leaf && L[leaf].prev == p && L[leaf].enabled
    requires n != NONE ==> L[leaf].next == n && L[n].prev == leaf
    ensures SetEnabled(Connect(L, leaf, p, n), leaf, true) == L
  {
  }

  lemma AddLinkFinds(c: Config, s: State, leaf: int, top: int)
    requires Structure(c, s) && IsLeaf(c, leaf) && IsRoot(c, top) && !Linked(s.actual, leaf)
    requires Linked(s.sim, leaf) && AddsAlike(c, s, leaf, top)
    ensures var t := AddLink(c, s, false, leaf, top);
            t.sim == s.sim && t.lnb == s.lnb && t.actual == Insert(c, s.actual, leaf, top)
    ensures Top(c, s.sim, leaf) == top
  {
    var p := InsertPoint(c, s.actual, top, leaf);
    var n := s.actual[p].next;
    assert NodeOk(c, s.actual, top) && NodeOk(c, s.actual, p) && NodeOk(c, s.sim, p) && NodeOk(c, s.sim, leaf)
      && LeafOk(c, s, leaf);
    if n != NONE {
      assert NodeOk(c, s.sim, n);
    }
    if IsLeaf(c, p) {
      assert LeafOk(c, s, p);
    }
    var t := AddLink(c, s, false, leaf, top);
    assert Top(c, s.sim, leaf) == Top(c, s.sim, p) == top;
    ConnectedAlready(s.sim, leaf, p, n);
    forall k | 0 <= k < |s.lnb| ensures t.lnb[k] == s.lnb[k] {
      assert top in s.lnb[k] <==> leaf in s.lnb[k];
    }
    assert t.lnb == s.lnb;
  }

  /** A leaf that a simulation has linked where it belongs can be linked there for real: nothing else changes. */
  lemma AddLinkIsThere(c: Config, s: State, leaf: int, top: int)
    requires Structure(c, s) && IsLeaf(c, leaf) && IsRoot(c, top) && !Linked(s.actual, leaf)
    requires Linked(s.sim, leaf) && AddsAlike(c, s, leaf, top)
    ensures var t := AddLink(c, s, false, leaf, top);
            && Structure(c, t) && t.sim == s.sim && t.lnb == s.lnb && t.actual == Insert(c, s.actual, leaf, top)
  {
    hide AddLink, AddsAlike, InsertPoint;
    AddLinkFinds(c, s, leaf, top);
    var t := AddLink(c, s, false, leaf, top);
    InsertKeepsShape(c, s.actual, leaf, top);
    InsertLinks(c, s.actual, leaf, top);
    forall i | IsLeaf(c, i)
      ensures LeafOk(c, t, i)
    {
      assert LeafOk(c, s, i);
      InsertTops(c, s.actual, leaf, top, i);
    }
  }

  /** Adding a link keeps the structure, and links that one leaf only. */
  lemma AddLinkKeepsStructure(c: Config, s: State, simulate: bool, leaf: int, top: int)
    requires Structure(c, s) && IsLeaf(c, leaf) && IsRoot(c, top) && !Linked(List(s, simulate), leaf)
    requires simulate || AddsAlike(c, s, leaf, top)
    requires c.tuner[leaf].setId == c.tuner[top].setId && !IsUnicable(c, s.lnb, top)
    ensures var t := AddLink(c, s, simulate, leaf, top);
            && Structure(c, t)
            && (forall i :: Linked(t.sim, i) <==> i == leaf || Linked(s.sim, i))
            && (if simulate then t.actual == s.actual
                else forall i :: Linked(t.actual, i) <==> i == leaf || Linked(s.actual, i))
  {
    if Linked(s.sim, leaf) {
      AddLinkIsThere(c, s, leaf, top);
      InsertLinks(c, s.actual, leaf, top);
    } else {
      assert LeafOk(c, s, leaf);
      AddLinkInserts(c, s, simulate, leaf, top);
    }
  }

  lemma AddLinkInserts(c: Config, s: State, simulate: bool, leaf: int, top: int)
    requires Structure(c, s) && IsLeaf(c, leaf) && !Linked(s.sim, leaf) && !Linked(s.actual, leaf)
    requires IsRoot(c, top) && (simulate || AddsAlike(c, s, leaf, top))
    requires c.tuner[leaf].setId == c.tuner[top].setId && !IsUnicable(c, s.lnb, top)
    ensures var t := AddLink(c, s, simulate, leaf, top);
            && Structure(c, t)
            && (forall i :: Linked(t.sim, i) <==> i == leaf || Linked(s.sim, i))
            && (if simulate then t.actual == s.actual
                else forall i :: Linked(t.actual, i) <==> i == leaf || Linked(s.actual, i))
  {
    assert LeafOk(c, s, leaf);
    var t := AddLink(c, s, simulate, leaf, top);
    if !simulate { RealAddLinkMirrors(c, s, leaf, top); }
    assert t.sim == Insert(c, s.sim, leaf, top);
    InsertKeepsShape(c, s.sim, leaf, top);
    InsertLinks(c, s.sim, leaf, top);
    if !simulate {
      InsertKeepsShape(c, s.actual, leaf, top);
      InsertLinks(c, s.actual, leaf, top);
    }
    UpdateMaskBits(s.lnb, leaf, top, false);
    forall i | IsLeaf(c, i)
      ensures LeafOk(c, t, i)
    {
      assert LeafOk(c, s, i);
      InsertTops(c, s.sim, leaf, top, i);
      if !simulate { InsertTops(c, s.actual, leaf, top, i); }
      UnicableKept(c, s.lnb, t.lnb, Top(c, t.sim, i));
      assert KeepsBits(s.lnb, t.lnb, i) || i == leaf;
      assert KeepsBits(s.lnb, t.lnb, Top(c, t.sim, i)) || !Linked(t.sim, i);
    }
    forall i | i in c.tuner && c.tuner[i].kind == UnicableLeaf
      ensures IsUnicable(c, t.lnb, i)
    {
      UnicableKept(c, s.lnb, t.lnb, i);
    }
  }

  /** Unlinking an unused leaf is never skipped; it keeps the structure and unlinks that one leaf only. */
  lemma UnlinkKeepsStructure(c: Config, s: State, simulate: bool, leaf: int)
    requires Structure(c, s) && IsLeaf(c, leaf) && Linked(List(s, simulate), leaf) && !IsUsed(s, leaf)
    requires if simulate then !Linked(s.actual, leaf) else RemovesAlike(s, leaf)
    ensures var t := Unlink(c, s, simulate, leaf);
            && Structure(c, t)
            && (forall i :: Linked(t.sim, i) <==> i != leaf && Linked(s.sim, i))
            && (if simulate then t.actual == s.actual
                else forall i :: Linked(t.actual, i) <==> i != leaf && Linked(s.actual, i))
  {
    LinkedIsNotUnicable(c, s, leaf);
    assert LeafOk(c, s, leaf);
    var t := Unlink(c, s, simulate, leaf);
    var L := List(s, simulate);
    var p := L[leaf].prev;
    assert NodeOk(c, L, leaf) && NodeOk(c, L, p);
    if !simulate { RealUnlinkMirrors(c, s, leaf); }
    assert t.sim == Remove(c, s.sim, leaf);
    RemoveKeepsShape(c, s.sim, leaf);
    RemoveLinks(c, s.sim, leaf);
    if !simulate {
      RemoveKeepsShape(c, s.actual, leaf);
      RemoveLinks(c, s.actual, leaf);
    }
    var top := Top(c, s.sim, leaf);
    RemoveTops(c, L, leaf, p);
    assert top == Top(c, L, leaf) == Top(c, L, p);
    UpdateMaskBits(s.lnb, leaf, top, true);
    forall i | IsLeaf(c, i)
      ensures LeafOk(c, t, i)
    {
      assert LeafOk(c, s, i);
      RemoveTops(c, s.sim, leaf, i);
      if !simulate { RemoveTops(c, s.actual, leaf, i); }
      UnicableKept(c, s.lnb, t.lnb, Top(c, s.sim, i));
      assert KeepsBits(s.lnb, t.lnb, i) || i == leaf;
      assert KeepsBits(s.lnb, t.lnb, Top(c, s.sim, i)) || !Linked(t.sim, i);
    }
    forall i | i in c.tuner && c.tuner[i].kind == UnicableLeaf
      ensures IsUnicable(c, t.lnb, i)
    {
      UnicableKept(c, s.lnb, t.lnb, i);
    }
  }

  // ---------------------------------------------------------------- allocate and release

  /** What allocateFrontend does once it has chosen a frontend, and a root to link it below or NONE. */
  ghost function Take(c: Config, s: State, simulate: bool, fe: int, root: int): (t: State)
    requires Structure(c, s) && fe in c.tuner
    requires root != NONE ==> IsLeaf(c, fe) && IsRoot(c, root) && !Linked(List(s, simulate), fe)
  {
    var s1 := if root != NONE then AddLink(c, s, simulate, fe, root) else s;
    WithList(s1, simulate, AddUse(List(s1, simulate), fe, 1))
  }

  /** A choice allocateFrontend may make: unused, and linked below a qualifying root iff it can be linked. */
  ghost predicate CanTake(c: Config, s: State, simulate: bool, fe: int, root: int)
    requires Structure(c, s)
  {
    && fe in c.tuner && List(s, simulate)[fe].inuse == 0
    && (IsLeaf(c, fe) && !Linked(List(s, simulate), fe) ==> root != NONE)
    && (root != NONE ==> IsLeaf(c, fe) && !Linked(List(s, simulate), fe) && Qualifies(c, s, simulate, fe, root))
  }

  /** The frontend's use count after a release. */
  function UsesAfterRelease(s: State, simulate: bool, fe: int): (t: State)
    requires fe in List(s, simulate)
  {
    WithList(s, simulate, AddUse(List(s, simulate), fe, -1))
  }

  /** What destroying an eDVBAllocatedFrontend does. */
  ghost function Release(c: Config, s: State, simulate: bool, fe: int): (t: State)
    requires Structure(c, s) && fe in c.tuner
  {
    var s1 := UsesAfterRelease(s, simulate, fe);
    UseKeepsStructure(c, s, simulate, fe, -1);
    if IsFbc(c, fe) then Unlink(c, s1, simulate, fe) else s1
  }

  lemma UseKeepsStructure(c: Config, s: State, simulate: bool, fe: int, d: int)
    requires Structure(c, s) && fe in c.tuner
    ensures Structure(c, WithList(s, simulate, AddUse(List(s, simulate), fe, d)))
  {
    var t := WithList(s, simulate, AddUse(List(s, simulate), fe, d));
    SameButUses(c, s, t);
  }

  /** t differs from s in use counts only. */
  ghost predicate OnlyUsesDiffer(c: Config, s: State, t: State) {
    && SameKeys(c, s.actual) && SameKeys(c, s.sim) && SameKeys(c, t.actual) && SameKeys(c, t.sim) && t.lnb == s.lnb
    && (forall k :: k in s.actual ==> t.actual[k] == s.actual[k].(inuse := t.actual[k].inuse))
    && (forall k :: k in s.sim ==> t.sim[k] == s.sim[k].(inuse := t.sim[k].inuse))
  }

  lemma SameButUses(c: Config, s: State, t: State)
    requires Structure(c, s) && OnlyUsesDiffer(c, s, t)
    ensures Structure(c, t)
  {
    ShapeIgnoresUses(c, s.actual, t.actual);
    ShapeIgnoresUses(c, s.sim, t.sim);
    forall i | IsLeaf(c, i)
      ensures LeafOk(c, t, i)
    {
      assert LeafOk(c, s, i);
      TopsIgnoreUses(c, s.actual, t.actual, i);
      TopsIgnoreUses(c, s.sim, t.sim, i);
    }
  }

  /** An allocation keeps the invariant, if it is simulated or finds the places alike. */
  lemma TakeKeepsInv(c: Config, s: State, simulate: bool, fe: int, root: int)
    requires Inv(c, s) && CanTake(c, s, simulate, fe, root)
    requires simulate || root == NONE || AddsAlike(c, s, fe, root)
    ensures Inv(c, Take(c, s, simulate, fe, root))
    ensures !simulate && AtRest(s) ==> AtRest(Take(c, s, simulate, fe, root))
    ensures simulate ==> Take(c, s, simulate, fe, root).actual == s.actual
  {
    assert UsesOk(c, s, fe);
    var s1 := s;
    if root != NONE {
      AddLinkKeepsStructure(c, s, simulate, fe, root);
      s1 := AddLink(c, s, simulate, fe, root);
      AddLinkKeepsUses(c, s, simulate, fe, root);
    }
    UseKeepsStructure(c, s1, simulate, fe, 1);
    var t := Take(c, s, simulate, fe, root);
    forall i | i in c.tuner
      ensures UsesOk(c, t, i)
    {
      assert UsesOk(c, s, i);
      assert Linked(t.actual, i) == Linked(s1.actual, i) && Linked(t.sim, i) == Linked(s1.sim, i);
    }
  }

  /** t has the use counts of s. */
  ghost predicate SameUses(c: Config, s: State, t: State) {
    && SameKeys(c, t.actual) && SameKeys(c, t.sim) && SameKeys(c, s.actual) && SameKeys(c, s.sim)
    && (forall i :: i in c.tuner ==> t.actual[i].inuse == s.actual[i].inuse && t.sim[i].inuse == s.sim[i].inuse)
  }

  lemma AddLinkKeepsUses(c: Config, s: State, simulate: bool, leaf: int, top: int)
    requires Structure(c, s) && IsLeaf(c, leaf) && IsRoot(c, top) && !Linked(List(s, simulate), leaf)
    ensures SameUses(c, s, AddLink(c, s, simulate, leaf, top))
  {
    hide LeafOk, Insert;
    var L := List(s, simulate);
    InsertFrame(c, L, leaf, top);
    var p := InsertPoint(c, L, top, leaf);
    assert NodeOk(c, L, p);
    if !simulate {
      ConnectUses(s.sim, leaf, p, L[p].next);
    }
  }

  lemma UnlinkKeepsUses(c: Config, s: State, simulate: bool, leaf: int)
    requires Structure(c, s) && IsFbc(c, leaf)
    ensures SameUses(c, s, Unlink(c, s, simulate, leaf))
  {
    var L := List(s, simulate);
    assert NodeOk(c, L, leaf);
    if IsLeaf(c, leaf) && Linked(L, leaf) {
      RemoveFrame(c, L, leaf);
      if !simulate {
        ConnectUses(s.sim, leaf, L[leaf].prev, L[leaf].next);
      }
    }
  }

  /** A release unlinks exactly a leaf whose last use, real or simulated, it gives back. */
  lemma ReleaseLinks(c: Config, s: State, simulate: bool, fe: int)
    requires Inv(c, s) && fe in c.tuner && List(s, simulate)[fe].inuse > 0 && (simulate || ReleasesAlike(c, s, fe))
    ensures var t := Release(c, s, simulate, fe);
            var freed := IsLeaf(c, fe) && !IsUsed(UsesAfterRelease(s, simulate, fe), fe);
            && Structure(c, t)
            && (forall i :: Linked(t.sim, i) <==> Linked(s.sim, i) && !(freed && i == fe))
            && (if simulate then forall i :: Linked(t.actual, i) <==> Linked(s.actual, i)
                else forall i :: Linked(t.actual, i) <==> Linked(s.actual, i) && !(freed && i == fe))
            && (forall i :: Linked(t.actual, i) ==> i in s.actual)
  {
    assert UsesOk(c, s, fe);
    UseKeepsStructure(c, s, simulate, fe, -1);
    var s1 := UsesAfterRelease(s, simulate, fe);
    SameLinked(c, s, s1);
    if IsLeaf(c, fe) && !IsUsed(s1, fe) {
      assert Linked(List(s1, simulate), fe);
      UnlinkKeepsStructure(c, s1, simulate, fe);
    } else if IsFbc(c, fe) {
      assert NodeOk(c, List(s1, simulate), fe);
      assert Unlink(c, s1, simulate, fe) == s1;
    }
  }

  lemma SameLinked(c: Config, s: State, t: State)
    requires OnlyUsesDiffer(c, s, t)
    ensures forall i :: (Linked(t.actual, i) <==> Linked(s.actual, i)) && (Linked(t.sim, i) <==> Linked(s.sim, i))
  {
  }

  lemma ReleaseUses(c: Config, s: State, simulate: bool, fe: int)
    requires Structure(c, s) && fe in c.tuner
    ensures var t, s1 := Release(c, s, simulate, fe), UsesAfterRelease(s, simulate, fe);
            && SameUses(c, s1, t)
            && (simulate ==> t.actual == s.actual)
  {
    UseKeepsStructure(c, s, simulate, fe, -1);
    if IsFbc(c, fe) {
      UnlinkKeepsUses(c, UsesAfterRelease(s, simulate, fe), simulate, fe);
    }
  }

  /** A release keeps the invariant, if it is simulated or finds the lists alike. */
  lemma ReleaseKeepsInv(c: Config, s: State, simulate: bool, fe: int)
    requires Inv(c, s) && fe in c.tuner && List(s, simulate)[fe].inuse > 0 && (simulate || ReleasesAlike(c, s, fe))
    ensures Inv(c, Release(c, s, simulate, fe))
    ensures !simulate && AtRest(s) ==> AtRest(Release(c, s, simulate, fe))
    ensures simulate ==> Release(c, s, simulate, fe).actual == s.actual
  {
    ReleaseLinks(c, s, simulate, fe);
    ReleaseUses(c, s, simulate, fe);
    var t := Release(c, s, simulate, fe);
    forall i | i in c.tuner
      ensures UsesOk(c, t, i)
    {
      assert UsesOk(c, s, i);
    }
  }

  // ---------------------------------------------------------------- simulation episodes

  /** What no simulated step touches. */
  ghost predicate SimFrame(c: Config, s: State, t: State)
    requires Structure(c, s) && Structure(c, t)
  {
    && t.actual == s.actual
    && (forall i :: i in c.tuner && !IsLeaf(c, i) ==> KeepsBits(s.lnb, t.lnb, i))
    && (forall i, k :: 0 <= k < |s.lnb| && i !in c.tuner ==> (i in s.lnb[k] <==> i in t.lnb[k]))
    && (forall i :: i in c.tuner && !IsLeaf(c, i) ==> t.sim[i].enabled == s.sim[i].enabled)
    && (forall i :: i in c.tuner && !IsFbc(c, i) ==> t.sim[i] == s.sim[i].(inuse := t.sim[i].inuse))
  }

  lemma SameMap(c: Config, L: Fes, M: Fes)
    requires SameKeys(c, L) && SameKeys(c, M) && forall i :: i in c.tuner ==> M[i] == L[i]
    ensures M == L
  {
    forall i
      ensures i in M <==> i in L
      ensures i in M ==> M[i] == L[i]
    {
      assert i in M <==> i in c.tuner;
    }
  }

  /** An episode that has released everything it took has changed nothing at all. */
  lemma EpisodeRestores(c: Config, s: State, t: State)
    requires Inv(c, s) && AtRest(s) && Inv(c, t) && AtRest(t) && SimFrame(c, s, t)
    ensures t == s
  {
    MirrorAtRest(c, s);
    MirrorAtRest(c, t);
    forall i | i in c.tuner
      ensures t.sim[i] == s.sim[i]
    {
      assert UsesOk(c, s, i) && UsesOk(c, t, i);
    }
    SameMap(c, s.sim, t.sim);
    forall k | 0 <= k < |s.lnb|
      ensures t.lnb[k] == s.lnb[k]
    {
      forall i
        ensures i in t.lnb[k] <==> i in s.lnb[k]
      {
        if IsLeaf(c, i) {
          assert LeafOk(c, s, i) && LeafOk(c, t, i);
          if Linked(s.sim, i) {
            var top := Top(c, s.sim, i);
            assert KeepsBits(s.lnb, t.lnb, top);
            assert i in s.lnb[k] <==> top in s.lnb[k];
            assert i in t.lnb[k] <==> top in t.lnb[k];
          }
        } else if i in c.tuner {
          assert KeepsBits(s.lnb, t.lnb, i);
        }
      }
    }
  }

  lemma AddLinkIsInFrame(c: Config, s: State, leaf: int, top: int)
    requires Inv(c, s) && CanTake(c, s, true, leaf, top) && top != NONE
    ensures Structure(c, AddLink(c, s, true, leaf, top)) && SimFrame(c, s, AddLink(c, s, true, leaf, top))
  {
    AddLinkKeepsStructure(c, s, true, leaf, top);
    assert LeafOk(c, s, leaf);
    InsertFrame(c, s.sim, leaf, top);
    UpdateMaskBits(s.lnb, leaf, top, false);
  }

  lemma TakeIsInFrame(c: Config, s: State, fe: int, root: int)
    requires Inv(c, s) && CanTake(c, s, true, fe, root)
    ensures Structure(c, Take(c, s, true, fe, root)) && SimFrame(c, s, Take(c, s, true, fe, root))
  {
    TakeKeepsInv(c, s, true, fe, root);
    if root != NONE {
      AddLinkIsInFrame(c, s, fe, root);
    }
  }

  lemma ReleaseIsInFrame(c: Config, s: State, fe: int)
    requires Inv(c, s) && fe in c.tuner && s.sim[fe].inuse > 0
    ensures Structure(c, Release(c, s, true, fe)) && SimFrame(c, s, Release(c, s, true, fe))
  {
    ReleaseKeepsInv(c, s, true, fe);
    UseKeepsStructure(c, s, true, fe, -1);
    var s1 := UsesAfterRelease(s, true, fe);
    if IsLeaf(c, fe) && Linked(s1.sim, fe) && !IsUsed(s1, fe) && !IsUnicable(c, s1.lnb, fe) {
      RemoveFrame(c, s1.sim, fe);
    } else {
      assert NodeOk(c, s1.sim, fe);
    }
  }
}
