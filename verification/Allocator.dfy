/**
 Choosing a frontend. A tuner's score is any function of the state: it may look
 at every pointer, flag, use count and slot mask, but changes nothing. A leaf is
 scored below a root by linking it to the end of the root's chain, asking for
 its score, and unlinking it again.
 */
module Allocator {
  import opened FbcChains
  import opened FbcStates

  /**
   Score of a slot, in the simulated list or not, in a state; fixed parameters of the tune are part of the function.
   */
  type Score = (State, bool, int) -> int

  // ---------------------------------------------------------------- probing a leaf

  ghost function Last(c: Config, L: Fes, top: int): (z: int)
    requires ChainsOk(c, L) && IsFbc(c, top)
    ensures IsFbc(c, z) && L[z].next == NONE
  {
    var xs := Chain(c, L, top);
    xs[|xs| - 1]
  }

  /** What the start of a probe does: link the leaf behind last, enable it, and give it top's LNB bits. */
  function Enter(s: State, simulate: bool, leaf: int, last: int, top: int): (t: State)
    requires leaf in List(s, simulate) && last in List(s, simulate)
  {
    var M := SetEnabled(Connect(List(s, simulate), leaf, last, NONE), leaf, true);
    WithList(s, simulate, M).(lnb := UpdateMask(s.lnb, leaf, top, false))
  }

  /** The state in which leaf is scored below top. */
  ghost function Probe(c: Config, s: State, simulate: bool, leaf: int, top: int): (t: State)
    requires Structure(c, s) && IsLeaf(c, leaf) && IsRoot(c, top)
  {
    Enter(s, simulate, leaf, Last(c, List(s, simulate), top), top)
  }

  /** What the end of a probe does to the state t. */
  function Unprobe(t: State, simulate: bool, leaf: int, last: int, top: int): (u: State)
    requires leaf in List(t, simulate) && last in List(t, simulate)
  {
    var M := SetEnabled(Disconnect(List(t, simulate), leaf, last, NONE), leaf, false);
    WithList(t, simulate, M).(lnb := UpdateMask(t.lnb, leaf, top, true))
  }

  /** Probing an unlinked leaf that has none of the root's LNB bits leaves no trace. */
  lemma ProbeIsUndone(c: Config, s: State, simulate: bool, leaf: int, top: int)
    requires Structure(c, s) && IsLeaf(c, leaf) && IsRoot(c, top) && !Linked(List(s, simulate), leaf)
    requires forall k :: 0 <= k < |s.lnb| && top in s.lnb[k] ==> leaf !in s.lnb[k]
    ensures Unprobe(Probe(c, s, simulate, leaf, top), simulate, leaf, Last(c, List(s, simulate), top), top) == s
  {
    var L := List(s, simulate);
    var z := Last(c, L, top);
    assert NodeOk(c, L, leaf);
    var xs := Chain(c, L, top);
    ChainIsWalk(c, L, top);
    ChainMembers(c, L, top, leaf);
    assert z in xs;
    var t := Probe(c, s, simulate, leaf, top);
    var u := Unprobe(t, simulate, leaf, z, top);
    assert List(u, simulate) == L;
    assert u.lnb == s.lnb;
  }

  /** A leaf that shares a bit with the root before the probe has lost it afterwards. */
  lemma ProbeLosesSharedBits(c: Config, s: State, simulate: bool, leaf: int, top: int, k: int)
    requires Structure(c, s) && IsLeaf(c, leaf) && IsRoot(c, top)
    requires 0 <= k < |s.lnb| && top in s.lnb[k] && leaf in s.lnb[k]
    ensures Unprobe(Probe(c, s, simulate, leaf, top), simulate, leaf, Last(c, List(s, simulate), top), top) != s
  {
    var t := Probe(c, s, simulate, leaf, top);
    var u := Unprobe(t, simulate, leaf, Last(c, List(s, simulate), top), top);
    assert leaf !in u.lnb[k];
  }

  /**
   t is s with leaf linked behind z, the end of top's chain, and enabled; leaf has its own LNB bits and those of top,
   and everything else is as in s.
   */
  ghost predicate IsProbedBehind(c: Config, s: State, t: State, simulate: bool, leaf: int, top: int, z: int)
    requires Structure(c, s) && IsLeaf(c, leaf) && IsRoot(c, top)
  {
    var L, M := List(s, simulate), List(t, simulate);
    && IsFbc(c, z) && z in L && L[z].next == NONE && Top(c, L, z) == top
    && List(t, !simulate) == List(s, !simulate) && |t.lnb| == |s.lnb|
    && SameKeys(c, M) && leaf in L && leaf in M && z in M
    && M[leaf] == Fe(L[leaf].inuse, true, z, NONE)
    && M[z] == L[z].(next := leaf)
    && (forall i :: i in L && i != leaf && i != z ==> i in M && M[i] == L[i])
    && (forall i :: i != leaf ==> KeepsBits(s.lnb, t.lnb, i))
    && (forall k :: 0 <= k < |s.lnb| ==> (leaf in t.lnb[k] <==> leaf in s.lnb[k] || top in s.lnb[k]))
  }

  ghost predicate IsProbed(c: Config, s: State, t: State, simulate: bool, leaf: int, top: int)
    requires Structure(c, s) && IsLeaf(c, leaf) && IsRoot(c, top)
  {
    exists z :: IsProbedBehind(c, s, t, simulate, leaf, top, z)
  }

  /** The end of a root's chain is unique. */
  lemma EndIsLast(c: Config, L: Fes, top: int, z: int)
    requires ChainsOk(c, L) && IsRoot(c, top) && IsFbc(c, z)
    ensures z in L && (L[z].next == NONE && Top(c, L, z) == top <==> z == Last(c, L, top))
  {
    hide NodeOk, Top, Chain;
    ChainMembers(c, L, top, z);
    ChainMembers(c, L, top, Last(c, L, top));
    OnlyLastEnds(c, L, top);
  }

  lemma OnlyLastEnds(c: Config, L: Fes, top: int)
    requires ChainsOk(c, L) && IsRoot(c, top)
    ensures var xs := Chain(c, L, top);
      Last(c, L, top) in xs && forall z :: z in xs ==> z in L && (L[z].next == NONE <==> z == Last(c, L, top))
  {
    hide NodeOk, Top, Chain;
    var xs := Chain(c, L, top);
    ChainIsWalk(c, L, top);
    forall k | 0 <= k < |xs| - 1 ensures L[xs[k]].next != NONE {
      assert IsLeaf(c, xs[k + 1]) && L[xs[k]].next == xs[k + 1];
    }
  }

  /** A leaf is scored linked, enabled, and with the LNB bits of the root, and nothing else is changed for it. */
  lemma ProbeMeans(c: Config, s: State, simulate: bool, leaf: int, top: int)
    requires Structure(c, s) && IsLeaf(c, leaf) && IsRoot(c, top) && !Linked(List(s, simulate), leaf)
    ensures var t := Probe(c, s, simulate, leaf, top);
      && IsProbed(c, s, t, simulate, leaf, top)
      && leaf in List(t, simulate) && List(t, simulate)[leaf].enabled && Linked(List(t, simulate), leaf)
      && (NoBits(s.lnb, leaf) ==> SameBits(t.lnb, leaf, top))
  {
    var L := List(s, simulate);
    var z := Last(c, L, top);
    assert NodeOk(c, L, leaf) && NodeOk(c, L, top);
    EndIsLast(c, L, top, z);
    ChainMembers(c, L, top, leaf);
    UpdateMaskBits(s.lnb, leaf, top, false);
    assert z != leaf;
    assert IsProbedBehind(c, s, Probe(c, s, simulate, leaf, top), simulate, leaf, top, z);
  }

  /** And that decides the state. */
  lemma ProbedIsUnique(c: Config, s: State, t: State, u: State, simulate: bool, leaf: int, top: int)
    requires Structure(c, s) && IsLeaf(c, leaf) && IsRoot(c, top)
    requires IsProbed(c, s, t, simulate, leaf, top) && IsProbed(c, s, u, simulate, leaf, top)
    ensures t == u
  {
    var y :| IsProbedBehind(c, s, t, simulate, leaf, top, y);
    var z :| IsProbedBehind(c, s, u, simulate, leaf, top, z);
    EndIsLast(c, List(s, simulate), top, y);
    EndIsLast(c, List(s, simulate), top, z);
    SameMap(c, List(t, simulate), List(u, simulate));
    forall k | 0 <= k < |s.lnb| ensures t.lnb[k] == u.lnb[k] {
      forall i ensures i in t.lnb[k] <==> i in u.lnb[k] {
        if i != leaf {
          assert KeepsBits(s.lnb, t.lnb, i) && KeepsBits(s.lnb, u.lnb, i);
        }
      }
    }
    assert t.lnb == u.lnb;
  }

  lemma WalkExtended(L: Fes, xs: seq<int>, leaf: int)
    requires IsWalk(L, xs) && NONE !in L && leaf in L && leaf !in xs && L[leaf].next == NONE
    ensures IsWalk(Connect(L, leaf, xs[|xs| - 1], NONE), xs + [leaf])
  {
    var z := xs[|xs| - 1];
    var M := Connect(L, leaf, z, NONE);
    var ys := xs + [leaf];
    forall k {:trigger ys[k]} | 0 <= k < |ys| - 1
      ensures M[ys[k]].next == ys[k + 1]
    {
      assert ys[k] == xs[k];
      if k < |xs| - 1 { assert L[xs[k]].next == xs[k + 1] && xs[k + 1] in L; }
    }
  }

  /** In the probed state the walk down from the root ends at the leaf. */
  lemma ProbeChain(c: Config, s: State, simulate: bool, leaf: int, top: int)
    requires Structure(c, s) && IsLeaf(c, leaf) && IsRoot(c, top) && !Linked(List(s, simulate), leaf)
    ensures leaf !in Chain(c, List(s, simulate), top)
    ensures List(Probe(c, s, simulate, leaf, top), simulate)[leaf].prev == Last(c, List(s, simulate), top)
    ensures IsWalk(List(Probe(c, s, simulate, leaf, top), simulate), Chain(c, List(s, simulate), top) + [leaf])
  {
    var L := List(s, simulate);
    var xs := Chain(c, L, top);
    assert NodeOk(c, L, leaf);
    ChainMembers(c, L, top, leaf);
    ChainIsWalk(c, L, top);
    WalkExtended(L, xs, leaf);
    assert IsWalk(Connect(L, leaf, Last(c, L, top), NONE), xs + [leaf]);
  }

  datatype Best = Best(score: int, root: int)

  /** The loop of isCompatibleWith over the first n frontends of the list. */
  ghost function BestRoot(c: Config, s: State, score: Score, simulate: bool, leaf: int, n: nat): (b: Best)
    requires Structure(c, s) && IsLeaf(c, leaf) && n <= |c.slots|
  {
    if n == 0 then Best(0, NONE)
    else
      var b := BestRoot(c, s, score, simulate, leaf, n - 1);
      var r := c.slots[n - 1];
      if Qualifies(c, s, simulate, leaf, r) && score(Probe(c, s, simulate, leaf, r), simulate, leaf) > b.score
      then Best(score(Probe(c, s, simulate, leaf, r), simulate, leaf), r)
      else b
  }

  /** The value the probe of the k-th frontend of the list gives, 0 when it does not qualify. */
  ghost function ProbeScore(c: Config, s: State, score: Score, simulate: bool, leaf: int, k: nat): (v: int)
    requires Structure(c, s) && IsLeaf(c, leaf) && k < |c.slots|
  {
    if Qualifies(c, s, simulate, leaf, c.slots[k])
    then score(Probe(c, s, simulate, leaf, c.slots[k]), simulate, leaf)
    else 0
  }

  /** The k-th frontend of the list qualifies and attains v, and no frontend before it does. */
  ghost predicate IsFirstRoot(c: Config, s: State, score: Score, simulate: bool, leaf: int, k: nat, v: int)
    requires Structure(c, s) && IsLeaf(c, leaf) && k < |c.slots|
  {
    && Qualifies(c, s, simulate, leaf, c.slots[k])
    && ProbeScore(c, s, score, simulate, leaf, k) == v
    && forall j {:trigger ProbeScore(c, s, score, simulate, leaf, j)} :: 0 <= j < k ==>
      ProbeScore(c, s, score, simulate, leaf, j) < v
  }

  lemma {:induction false} BestRootBound(c: Config, s: State, score: Score, simulate: bool, leaf: int, n: nat, k: nat)
    requires Structure(c, s) && IsLeaf(c, leaf) && n <= |c.slots|
    ensures BestRoot(c, s, score, simulate, leaf, n).score >= 0
    ensures k < n ==> ProbeScore(c, s, score, simulate, leaf, k) <= BestRoot(c, s, score, simulate, leaf, n).score
  {
    hide Structure, Qualifies, Probe;
    if n > 0 {
      BestRootBound(c, s, score, simulate, leaf, n - 1, k);
    }
  }

  lemma BestRootBounds(c: Config, s: State, score: Score, simulate: bool, leaf: int, n: nat)
    requires Structure(c, s) && IsLeaf(c, leaf) && n <= |c.slots|
    ensures var b := BestRoot(c, s, score, simulate, leaf, n);
            && b.score >= 0
            && forall k {:trigger ProbeScore(c, s, score, simulate, leaf, k)} :: 0 <= k < n ==>
              ProbeScore(c, s, score, simulate, leaf, k) <= b.score
  {
    BestRootBound(c, s, score, simulate, leaf, n, n);
    forall k {:trigger ProbeScore(c, s, score, simulate, leaf, k)} | 0 <= k < n
      ensures ProbeScore(c, s, score, simulate, leaf, k) <= BestRoot(c, s, score, simulate, leaf, n).score
    {
      BestRootBound(c, s, score, simulate, leaf, n, k);
    }
  }

  lemma {:induction false} BestRootIsAttained(c: Config, s: State, score: Score, simulate: bool, leaf: int, n: nat)
      returns (k: nat)
    requires Structure(c, s) && IsLeaf(c, leaf) && n <= |c.slots|
    ensures var b := BestRoot(c, s, score, simulate, leaf, n);
            && (b.score == 0 <==> b.root == NONE)
            && (b.root != NONE ==>
                  k < n && c.slots[k] == b.root && IsFirstRoot(c, s, score, simulate, leaf, k, b.score))
  {
    hide LeafOk, NodeOk, Probe;
    k := 0;
    if n > 0 {
      BestRootBounds(c, s, score, simulate, leaf, n - 1);
      k := BestRootIsAttained(c, s, score, simulate, leaf, n - 1);
      var r := c.slots[n - 1];
      if BestRoot(c, s, score, simulate, leaf, n) != BestRoot(c, s, score, simulate, leaf, n - 1) {
        k := n - 1;
        assert ProbeScore(c, s, score, simulate, leaf, n - 1) == BestRoot(c, s, score, simulate, leaf, n).score;
        assert r in c.tuner && r != NONE;
      }
    }
  }

  /** The best score is the maximum over all qualifying roots, and the first root that attains it is reported. */
  lemma BestRootIsFirstMaximum(c: Config, s: State, score: Score, simulate: bool, leaf: int)
    requires Structure(c, s) && IsLeaf(c, leaf)
    ensures var b := BestRoot(c, s, score, simulate, leaf, |c.slots|);
            && (forall k {:trigger ProbeScore(c, s, score, simulate, leaf, k)} :: 0 <= k < |c.slots| ==>
                  ProbeScore(c, s, score, simulate, leaf, k) <= b.score)
            && b.score >= 0
            && (b.score == 0 <==> b.root == NONE)
            && (b.root != NONE ==>
                  exists k :: 0 <= k < |c.slots| && c.slots[k] == b.root
                    && IsFirstRoot(c, s, score, simulate, leaf, k, b.score))
  {
    BestRootBounds(c, s, score, simulate, leaf, |c.slots|);
    var k := BestRootIsAttained(c, s, score, simulate, leaf, |c.slots|);
  }

  /** What isCompatibleWith asks of a root below which it tries a leaf. */
  lemma QualifiesMeans(c: Config, s: State, simulate: bool, leaf: int, top: int)
    requires Structure(c, s) && IsLeaf(c, leaf)
    ensures Qualifies(c, s, simulate, leaf, top) <==>
      && top in c.tuner && top in List(s, simulate)
      && c.tuner[top].kind == Root && c.tuner[top].setId == c.tuner[leaf].setId
      && List(s, simulate)[top].enabled && List(s, simulate)[top].inuse != 0
      && !exists j :: 0 <= j < |s.lnb| && top in s.lnb[j] && c.satCr[j] != -1
           && forall m :: 0 <= m < j ==> top !in s.lnb[m]
  {
    UnicableMeans(c.satCr, s.lnb, top, 0);
    if top in List(s, simulate) {
      assert NodeOk(c, List(s, simulate), top);
    }
  }

  // ---------------------------------------------------------------- the two allocation loops

  /** What one pass of either loop finds for frontend i, and the two loop variables it leaves behind. */
  datatype Offer = Offer(value: int, root: int, checked: bool, setId: int)

  ghost function FrontendOffer(c: Config, s: State, score: Score, simulate: bool, checked: bool, setId: int,
      i: int): (o: Offer)
    requires Structure(c, s) && i in c.tuner
  {
    CanLinkExactlyIfFbc(c, s, simulate, i);
    if IsFbc(c, i) && CanLink(c, s, simulate, i) then
      var id := c.tuner[i].setId;
      if id == setId && checked then Offer(0, NONE, true, id)
      else
        var b := BestRoot(c, s, score, simulate, i, |c.slots|);
        Offer(b.score, b.root, true, id)
    else Offer(score(s, simulate, i), NONE, checked, setId)
  }

  lemma CanLinkExactlyIfFbc(c: Config, s: State, simulate: bool, i: int)
    requires Structure(c, s)
    ensures IsFbc(c, i) ==> (CanLink(c, s, simulate, i) <==> IsLeaf(c, i) && !Linked(List(s, simulate), i))
  {
    if IsFbc(c, i) {
      CanLinkExactly(c, s, simulate, i);
    }
  }

  datatype Scan = Scan(bestval: int, best: int, bestRoot: int, foundone: bool, checked: bool, setId: int)

  /** The loop of allocateFrontend after n frontends. */
  ghost function AllocateScan(c: Config, s: State, score: Score, simulate: bool, n: nat): (a: Scan)
    requires Structure(c, s) && n <= |c.slots|
  {
    if n == 0 then Scan(0, NONE, NONE, false, false, NONE)
    else
      var a := AllocateScan(c, s, score, simulate, n - 1);
      var i := c.slots[n - 1];
      var o := FrontendOffer(c, s, score, simulate, a.checked, a.setId, i);
      var b := a.(foundone := a.foundone || o.value != 0, checked := o.checked, setId := o.setId);
      if Unused(s, simulate, i) && o.value > a.bestval
      then b.(bestval := o.value, best := i, bestRoot := o.root)
      else b
  }

  /** The loop of canAllocateFrontend after n frontends; it passes over frontends in use. */
  ghost function CanAllocateScan(c: Config, s: State, score: Score, simulate: bool, n: nat): (a: Offer)
    requires Structure(c, s) && n <= |c.slots|
  {
    if n == 0 then Offer(0, NONE, false, NONE)
    else
      var a := CanAllocateScan(c, s, score, simulate, n - 1);
      var i := c.slots[n - 1];
      if Unused(s, simulate, i) then
        var o := FrontendOffer(c, s, score, simulate, a.checked, a.setId, i);
        o.(value := if o.value > a.value then o.value else a.value, root := NONE)
      else a
  }

  ghost function CanAllocate(c: Config, s: State, score: Score, simulate: bool): (v: int)
    requires Structure(c, s)
  {
    CanAllocateScan(c, s, score, simulate, |c.slots|).value
  }

  datatype Result = Allocated(fe: int, root: int) | AllSourcesBusy | NoSourceFound

  ghost function Allocate(c: Config, s: State, score: Score, simulate: bool): (r: Result)
    requires Structure(c, s)
  {
    var a := AllocateScan(c, s, score, simulate, |c.slots|);
    if a.best != NONE then Allocated(a.best, a.bestRoot)
    else if a.foundone then AllSourcesBusy
    else NoSourceFound
  }

  /** What the allocation loop finds for the k-th frontend of the list. */
  ghost function OfferAt(c: Config, s: State, score: Score, simulate: bool, k: nat): (o: Offer)
    requires Structure(c, s) && k < |c.slots|
  {
    var a := AllocateScan(c, s, score, simulate, k);
    FrontendOffer(c, s, score, simulate, a.checked, a.setId, c.slots[k])
  }

  ghost predicate Linkable(c: Config, s: State, simulate: bool, k: nat)
    requires k < |c.slots|
  {
    IsLeaf(c, c.slots[k]) && !Linked(List(s, simulate), c.slots[k])
  }

  /** Frontend j is the last linkable leaf among the first n frontends. */
  ghost predicate IsLastLinkable(c: Config, s: State, simulate: bool, n: nat, j: int)
    requires n <= |c.slots|
  {
    && 0 <= j < n && Linkable(c, s, simulate, j)
    && forall m {:trigger Linkable(c, s, simulate, m)} :: j < m < n ==> !Linkable(c, s, simulate, m)
  }

  /** The set of the last linkable leaf among the first n frontends, or NONE. */
  ghost function LastSet(c: Config, s: State, simulate: bool, n: nat): (id: int)
    requires n <= |c.slots|
  {
    if n == 0 then NONE
    else if Linkable(c, s, simulate, n - 1) then c.tuner[c.slots[n - 1]].setId
    else LastSet(c, s, simulate, n - 1)
  }

  lemma {:induction false} LastSetMeans(c: Config, s: State, simulate: bool, n: nat) returns (j: int)
    requires ConfigOk(c) && n <= |c.slots|
    ensures if LastSet(c, s, simulate, n) == NONE
            then forall m {:trigger Linkable(c, s, simulate, m)} :: 0 <= m < n ==> !Linkable(c, s, simulate, m)
            else IsLastLinkable(c, s, simulate, n, j) && c.tuner[c.slots[j]].setId == LastSet(c, s, simulate, n)
  {
    j := n - 1;
    if n > 0 && !Linkable(c, s, simulate, n - 1) {
      j := LastSetMeans(c, s, simulate, n - 1);
    }
  }

  /** Leaf k has already been answered for: the linkable leaf before it is of the same FBC set. */
  ghost predicate AnsweredFor(c: Config, s: State, simulate: bool, k: nat)
    requires k < |c.slots|
  {
    c.slots[k] in c.tuner && LastSet(c, s, simulate, k) == c.tuner[c.slots[k]].setId
  }

  /** The two loop variables hold the set of the last linkable leaf. */
  lemma {:induction false} LoopVariables(c: Config, s: State, score: Score, simulate: bool, n: nat)
    requires Structure(c, s) && n <= |c.slots|
    ensures var a := AllocateScan(c, s, score, simulate, n);
            a.setId == LastSet(c, s, simulate, n) && (a.checked <==> a.setId != NONE)
  {
    if n > 0 {
      LoopVariables(c, s, score, simulate, n - 1);
      CanLinkExactlyIfFbc(c, s, simulate, c.slots[n - 1]);
    }
  }

  /** Only the first linkable leaf of a run of one FBC set is probed; every other frontend is scored as it stands. */
  lemma OfferMeans(c: Config, s: State, score: Score, simulate: bool, k: nat)
    requires Structure(c, s) && k < |c.slots|
    ensures var o, i := OfferAt(c, s, score, simulate, k), c.slots[k];
            if !Linkable(c, s, simulate, k) then o.value == score(s, simulate, i) && o.root == NONE
            else if AnsweredFor(c, s, simulate, k) then o.value == 0 && o.root == NONE
            else Best(o.value, o.root) == BestRoot(c, s, score, simulate, i, |c.slots|)
  {
    LoopVariables(c, s, score, simulate, k);
    CanLinkExactlyIfFbc(c, s, simulate, c.slots[k]);
  }

  /** Every frontend in use is linked, or cannot be linked at all. */
  ghost predicate BusyIsNotLinkable(c: Config, s: State, simulate: bool)
    requires Structure(c, s)
  {
    forall i {:trigger Linked(List(s, simulate), i)} ::
      IsLeaf(c, i) && Busy(s, simulate, i) ==> Linked(List(s, simulate), i)
  }

  lemma InvMeansBusyIsNotLinkable(c: Config, s: State, simulate: bool)
    requires Inv(c, s)
    ensures BusyIsNotLinkable(c, s, simulate)
  {
    forall i | IsLeaf(c, i) && Busy(s, simulate, i)
      ensures Linked(List(s, simulate), i)
    {
      assert UsesOk(c, s, i);
    }
  }

  lemma {:induction false} ScansAgree(c: Config, s: State, score: Score, simulate: bool, n: nat)
    requires Structure(c, s) && BusyIsNotLinkable(c, s, simulate) && n <= |c.slots|
    ensures var a, b := AllocateScan(c, s, score, simulate, n), CanAllocateScan(c, s, score, simulate, n);
            a.bestval == b.value && a.checked == b.checked && a.setId == b.setId
  {
    if n > 0 {
      ScansAgree(c, s, score, simulate, n - 1);
      CanLinkExactlyIfFbc(c, s, simulate, c.slots[n - 1]);
      assert IsLeaf(c, c.slots[n - 1]) && Busy(s, simulate, c.slots[n - 1])
        ==> Linked(List(s, simulate), c.slots[n - 1]);
    }
  }

  /** The set of the last linkable leaf among the unused ones of the first n frontends, or NONE. */
  ghost function LastUnusedSet(c: Config, s: State, simulate: bool, n: nat): (id: int)
    requires n <= |c.slots|
  {
    if n == 0 then NONE
    else if Linkable(c, s, simulate, n - 1) && Unused(s, simulate, c.slots[n - 1]) then c.tuner[c.slots[n - 1]].setId
    else LastUnusedSet(c, s, simulate, n - 1)
  }

  /** Leaf k has been answered for in the loop that passes over frontends in use. */
  ghost predicate AnsweredAmongUnused(c: Config, s: State, simulate: bool, k: nat)
    requires k < |c.slots|
  {
    c.slots[k] in c.tuner && LastUnusedSet(c, s, simulate, k) == c.tuner[c.slots[k]].setId
  }

  lemma {:induction false} CanAllocateLoopVariables(c: Config, s: State, score: Score, simulate: bool, n: nat)
    requires Structure(c, s) && n <= |c.slots|
    ensures var a := CanAllocateScan(c, s, score, simulate, n);
            a.setId == LastUnusedSet(c, s, simulate, n) && (a.checked <==> a.setId != NONE)
  {
    if n > 0 {
      CanAllocateLoopVariables(c, s, score, simulate, n - 1);
      CanLinkExactlyIfFbc(c, s, simulate, c.slots[n - 1]);
    }
  }

  /** What canAllocateFrontend finds for the k-th frontend of the list. */
  ghost function UnusedOfferAt(c: Config, s: State, score: Score, simulate: bool, k: nat): (v: int)
    requires Structure(c, s) && k < |c.slots|
  {
    if !Linkable(c, s, simulate, k) then score(s, simulate, c.slots[k])
    else if AnsweredAmongUnused(c, s, simulate, k) then 0
    else BestRoot(c, s, score, simulate, c.slots[k], |c.slots|).score
  }

  /** Its value is 0 or the offer of an unused frontend, and no such offer is larger. */
  lemma {:induction false} CanAllocateIsMaximum(c: Config, s: State, score: Score, simulate: bool, n: nat)
    requires Structure(c, s) && n <= |c.slots|
    ensures var v := CanAllocateScan(c, s, score, simulate, n).value;
            && v >= 0
            && (forall k :: 0 <= k < n && Unused(s, simulate, c.slots[k]) ==>
                  UnusedOfferAt(c, s, score, simulate, k) <= v)
            && (v > 0 ==>
                  exists k :: 0 <= k < n && Unused(s, simulate, c.slots[k])
                    && UnusedOfferAt(c, s, score, simulate, k) == v)
  {
    if n > 0 {
      CanAllocateIsMaximum(c, s, score, simulate, n - 1);
      CanAllocateLoopVariables(c, s, score, simulate, n - 1);
      CanLinkExactlyIfFbc(c, s, simulate, c.slots[n - 1]);
      var a, b := CanAllocateScan(c, s, score, simulate, n - 1), CanAllocateScan(c, s, score, simulate, n);
      if Unused(s, simulate, c.slots[n - 1]) {
        var v := UnusedOfferAt(c, s, score, simulate, n - 1);
        assert b.value == if v > a.value then v else a.value;
      }
    }
  }

  /** Some root of the list qualifies for leaf k. */
  ghost predicate HasRoot(c: Config, s: State, simulate: bool, k: nat)
    requires Structure(c, s) && k < |c.slots| && IsLeaf(c, c.slots[k])
  {
    exists j :: 0 <= j < |c.slots| && Qualifies(c, s, simulate, c.slots[k], c.slots[j])
  }

  /** Frontends in use have not answered for leaf k, nor kept another leaf from having done so. */
  ghost predicate AnsweredAlike(c: Config, s: State, simulate: bool, k: nat)
    requires Structure(c, s) && k < |c.slots|
  {
    Unused(s, simulate, c.slots[k]) && Linkable(c, s, simulate, k) && HasRoot(c, s, simulate, k) ==>
      (AnsweredFor(c, s, simulate, k) <==> AnsweredAmongUnused(c, s, simulate, k))
  }

  lemma OffersAgree(c: Config, s: State, score: Score, simulate: bool, k: nat)
    requires Structure(c, s) && k < |c.slots| && Unused(s, simulate, c.slots[k]) && AnsweredAlike(c, s, simulate, k)
    ensures OfferAt(c, s, score, simulate, k).value == UnusedOfferAt(c, s, score, simulate, k)
  {
    OfferMeans(c, s, score, simulate, k);
    if Linkable(c, s, simulate, k) && !HasRoot(c, s, simulate, k) {
      BestRootIsFirstMaximum(c, s, score, simulate, c.slots[k]);
    }
  }

  /** The score that asks for slot i. */
  function Wants(i: int): (score: Score) {
    (t, b, j) => if j == i then 1 else 0
  }

  lemma OnlyWanted(c: Config, s: State, simulate: bool, i: int, k: nat)
    requires Structure(c, s) && k < |c.slots|
    ensures var o, v := OfferAt(c, s, Wants(i), simulate, k).value, UnusedOfferAt(c, s, Wants(i), simulate, k);
      if !Linkable(c, s, simulate, k) then o == v == (if c.slots[k] == i then 1 else 0)
      else
        var w := if c.slots[k] == i && HasRoot(c, s, simulate, k) then 1 else 0;
        && o == (if AnsweredFor(c, s, simulate, k) then 0 else w)
        && v == (if AnsweredAmongUnused(c, s, simulate, k) then 0 else w)
  {
    OfferMeans(c, s, Wants(i), simulate, k);
    if Linkable(c, s, simulate, k) {
      var leaf := c.slots[k];
      BestRootIsFirstMaximum(c, s, Wants(i), simulate, leaf);
      if HasRoot(c, s, simulate, k) {
        var j :| 0 <= j < |c.slots| && Qualifies(c, s, simulate, leaf, c.slots[j]);
        assert ProbeScore(c, s, Wants(i), simulate, leaf, j) == if leaf == i then 1 else 0;
      }
    }
  }

  /**
   In any state with well formed chains, the two loops find the same value, whatever the scores, exactly if frontends
   in use make no difference to what has been answered for.
   */
  lemma LoopsAgreeExactly(c: Config, s: State, simulate: bool)
    requires Structure(c, s) && forall i, j :: 0 <= i < j < |c.slots| ==> c.slots[i] != c.slots[j]
    ensures (forall score: Score ::
      AllocateScan(c, s, score, simulate, |c.slots|).bestval == CanAllocate(c, s, score, simulate)) <==>
              (forall k :: 0 <= k < |c.slots| ==> AnsweredAlike(c, s, simulate, k))
  {
    if forall k :: 0 <= k < |c.slots| ==> AnsweredAlike(c, s, simulate, k) {
      forall score: Score
        ensures AllocateScan(c, s, score, simulate, |c.slots|).bestval == CanAllocate(c, s, score, simulate)
      {
        LoopsAgree(c, s, score, simulate);
      }
    } else {
      var k :| 0 <= k < |c.slots| && !AnsweredAlike(c, s, simulate, k);
      LoopsDisagree(c, s, simulate, k);
    }
  }

  lemma LoopsAgree(c: Config, s: State, score: Score, simulate: bool)
    requires Structure(c, s) && forall k :: 0 <= k < |c.slots| ==> AnsweredAlike(c, s, simulate, k)
    ensures AllocateScan(c, s, score, simulate, |c.slots|).bestval == CanAllocate(c, s, score, simulate)
  {
    ScanBounds(c, s, score, simulate, |c.slots|);
    var first := ScanFindsFirstBest(c, s, score, simulate, |c.slots|);
    CanAllocateIsMaximum(c, s, score, simulate, |c.slots|);
    forall k | 0 <= k < |c.slots| && Unused(s, simulate, c.slots[k])
      ensures OfferAt(c, s, score, simulate, k).value == UnusedOfferAt(c, s, score, simulate, k)
    {
      OffersAgree(c, s, score, simulate, k);
    }
  }

  lemma LoopsDisagree(c: Config, s: State, simulate: bool, k: nat)
    requires Structure(c, s) && forall i, j :: 0 <= i < j < |c.slots| ==> c.slots[i] != c.slots[j]
    requires k < |c.slots| && !AnsweredAlike(c, s, simulate, k)
    ensures var score := Wants(c.slots[k]);
      AllocateScan(c, s, score, simulate, |c.slots|).bestval != CanAllocate(c, s, score, simulate)
  {
    var score := Wants(c.slots[k]);
    ScanBounds(c, s, score, simulate, |c.slots|);
    var first := ScanFindsFirstBest(c, s, score, simulate, |c.slots|);
    CanAllocateIsMaximum(c, s, score, simulate, |c.slots|);
    forall j | 0 <= j < |c.slots|
      ensures j != k ==> OfferAt(c, s, score, simulate, j).value == 0 == UnusedOfferAt(c, s, score, simulate, j)
      ensures j == k ==> {OfferAt(c, s, score, simulate, j).value, UnusedOfferAt(c, s, score, simulate, j)} == {0, 1}
    {
      OnlyWanted(c, s, simulate, c.slots[k], j);
    }
    var a, v := AllocateScan(c, s, score, simulate, |c.slots|), CanAllocate(c, s, score, simulate);
    assert a.bestval >= OfferAt(c, s, score, simulate, k).value && v >= UnusedOfferAt(c, s, score, simulate, k);
    assert a.bestval > 0 ==> first == k;
    assert 0 in {OfferAt(c, s, score, simulate, k).value, UnusedOfferAt(c, s, score, simulate, k)};
    assert 1 in {OfferAt(c, s, score, simulate, k).value, UnusedOfferAt(c, s, score, simulate, k)};
  }

  /** k is the first unused frontend whose offer is v. */
  ghost predicate IsFirstBest(c: Config, s: State, score: Score, simulate: bool, k: nat, v: int)
    requires Structure(c, s) && k < |c.slots|
  {
    && Unused(s, simulate, c.slots[k])
    && OfferAt(c, s, score, simulate, k).value == v
    && forall j {:trigger OfferAt(c, s, score, simulate, j)} ::
         (0 <= j < k && Unused(s, simulate, c.slots[j])) ==>
           OfferAt(c, s, score, simulate, j).value < v
  }

  lemma {:induction false} ScanBounds(c: Config, s: State, score: Score, simulate: bool, n: nat)
    requires Structure(c, s) && n <= |c.slots|
    ensures var a := AllocateScan(c, s, score, simulate, n);
            && a.bestval >= 0
            && forall k {:trigger OfferAt(c, s, score, simulate, k)} ::
                 (0 <= k < n && Unused(s, simulate, c.slots[k])) ==>
                   OfferAt(c, s, score, simulate, k).value <= a.bestval
  {
    if n > 0 {
      ScanBounds(c, s, score, simulate, n - 1);
    }
  }

  lemma {:induction false} ScanFound(c: Config, s: State, score: Score, simulate: bool, n: nat)
    requires Structure(c, s) && n <= |c.slots|
    ensures AllocateScan(c, s, score, simulate, n).foundone <==>
              exists k {:trigger OfferAt(c, s, score, simulate, k)} :: 0 <= k < n
                && OfferAt(c, s, score, simulate, k).value != 0
  {
    if n > 0 {
      ScanFound(c, s, score, simulate, n - 1);
      assert AllocateScan(c, s, score, simulate, n).foundone
        == (AllocateScan(c, s, score, simulate, n - 1).foundone || OfferAt(c, s, score, simulate, n - 1).value != 0);
    }
  }

  lemma {:induction false} ScanFindsFirstBest(c: Config, s: State, score: Score, simulate: bool, n: nat)
      returns (k: nat)
    requires Structure(c, s) && n <= |c.slots|
    ensures var a := AllocateScan(c, s, score, simulate, n);
            && (a.best == NONE <==> a.bestval == 0)
            && (a.best != NONE ==>
                  && k < n && c.slots[k] == a.best && IsFirstBest(c, s, score, simulate, k, a.bestval)
                  && OfferAt(c, s, score, simulate, k).root == a.bestRoot)
  {
    k := 0;
    if n > 0 {
      ScanBounds(c, s, score, simulate, n - 1);
      k := ScanFindsFirstBest(c, s, score, simulate, n - 1);
      var i := c.slots[n - 1];
      assert i in c.tuner && i != NONE;
      var o := OfferAt(c, s, score, simulate, n - 1);
      if Unused(s, simulate, i) && o.value > AllocateScan(c, s, score, simulate, n - 1).bestval {
        k := n - 1;
      }
    }
  }

  /**
   In every reachable state, allocateFrontend and canAllocateFrontend agree although only the former looks at
   frontends in use: an allocation succeeds iff canAllocateFrontend is positive, and takes the first unused
   frontend that attains its value.
   */
  lemma AllocationAgrees(c: Config, s: State, score: Score, simulate: bool)
    requires Inv(c, s)
    ensures var r, v := Allocate(c, s, score, simulate), CanAllocate(c, s, score, simulate);
            && (r.Allocated? <==> v > 0)
            && (r.Allocated? ==>
                  exists k :: 0 <= k < |c.slots| && c.slots[k] == r.fe && IsFirstBest(c, s, score, simulate, k, v)
                    && OfferAt(c, s, score, simulate, k).root == r.root)
            && (forall k :: 0 <= k < |c.slots| && Unused(s, simulate, c.slots[k])
                  ==> OfferAt(c, s, score, simulate, k).value <= v)
  {
    InvMeansBusyIsNotLinkable(c, s, simulate);
    ScansAgree(c, s, score, simulate, |c.slots|);
    ScanBounds(c, s, score, simulate, |c.slots|);
    var k := ScanFindsFirstBest(c, s, score, simulate, |c.slots|);
  }

  /**
   With scores that are never negative, "all busy" is answered iff nothing can be allocated and a frontend in use
   scores.
   */
  lemma AllBusyMeans(c: Config, s: State, score: Score, simulate: bool)
    requires Inv(c, s) && forall t, b, i :: score(t, b, i) >= 0
    ensures Allocate(c, s, score, simulate) == AllSourcesBusy <==>
              && CanAllocate(c, s, score, simulate) == 0
              && exists k :: 0 <= k < |c.slots| && Busy(s, simulate, c.slots[k]) && score(s, simulate, c.slots[k]) > 0
  {
    InvMeansBusyIsNotLinkable(c, s, simulate);
    ScansAgree(c, s, score, simulate, |c.slots|);
    ScanBounds(c, s, score, simulate, |c.slots|);
    ScanFound(c, s, score, simulate, |c.slots|);
    var first := ScanFindsFirstBest(c, s, score, simulate, |c.slots|);
    forall k | 0 <= k < |c.slots|
      ensures c.slots[k] in c.tuner
      ensures OfferAt(c, s, score, simulate, k).value >= 0
      ensures Busy(s, simulate, c.slots[k]) ==>
        OfferAt(c, s, score, simulate, k).value == score(s, simulate, c.slots[k])
    {
      OfferMeans(c, s, score, simulate, k);
      if Linkable(c, s, simulate, k) {
        BestRootIsFirstMaximum(c, s, score, simulate, c.slots[k]);
      }
      var i := c.slots[k];
      assert IsLeaf(c, i) && Busy(s, simulate, i) ==> Linked(List(s, simulate), i);
    }
    if exists k :: 0 <= k < |c.slots| && Busy(s, simulate, c.slots[k]) && score(s, simulate, c.slots[k]) > 0 {
      var k :| 0 <= k < |c.slots| && Busy(s, simulate, c.slots[k]) && score(s, simulate, c.slots[k]) > 0;
      assert OfferAt(c, s, score, simulate, k).value != 0;
    }
  }

  /** Whatever the scores, the choice of allocateFrontend is one that keeps the invariant. */
  lemma ChoiceIsLegal(c: Config, s: State, score: Score, simulate: bool)
    requires Structure(c, s)
    ensures var r := Allocate(c, s, score, simulate);
            r.Allocated? ==> CanTake(c, s, simulate, r.fe, r.root)
  {
    var k := ScanFindsFirstBest(c, s, score, simulate, |c.slots|);
    var r := Allocate(c, s, score, simulate);
    if r.Allocated? {
      OfferMeans(c, s, score, simulate, k);
      if Linkable(c, s, simulate, k) {
        BestRootIsFirstMaximum(c, s, score, simulate, r.fe);
      }
    }
  }

  // ---------------------------------------------------------------- allocation by slot

  /** Another frontend that is linked with i is in use. */
  ghost predicate LinkedInUse(c: Config, s: State, i: int)
    requires Structure(c, s) && IsFbc(c, i)
  {
    exists j :: j != i && Busy(s, false, j) && (j in Chain(c, s.actual, i) || j in Climb(c, s.actual, i))
  }

  /** allocateFrontendByIndex, for an FBC tuner that depends on no other's satellite position. It links nothing. */
  ghost function AllocateByIndex(c: Config, s: State, i: int): (r: Result)
    requires Structure(c, s) && IsFbc(c, i)
  {
    if i !in c.slots || !Unused(s, false, i) then NoSourceFound
    else if LinkedInUse(c, s, i) then AllSourcesBusy
    else Allocated(i, NONE)
  }

  function UseOnly(s: State, i: int): (t: State)
    requires i in s.actual
  {
    s.(actual := AddUse(s.actual, i, 1))
  }

  /**
   It succeeds for every unused tuner that links nothing below it; and it breaks the invariant exactly if that is a
   leaf, which is then in use without being linked.
   */
  lemma ByIndexKeepsInv(c: Config, s: State, i: int)
    requires Inv(c, s) && IsFbc(c, i) && i in c.slots
    ensures AllocateByIndex(c, s, i) == Allocated(i, NONE) <==> Unused(s, false, i) && s.actual[i].next == NONE
    ensures AllocateByIndex(c, s, i).Allocated? ==> (Inv(c, UseOnly(s, i)) <==> !IsLeaf(c, i))
    ensures AllocateByIndex(c, s, i).Allocated? && IsLeaf(c, i) ==>
      Structure(c, UseOnly(s, i)) && !BusyIsNotLinkable(c, UseOnly(s, i), false)
  {
    UseKeepsStructure(c, s, false, i, 1);
    assert NodeOk(c, s.actual, i) && UsesOk(c, s, i);
    var t := UseOnly(s, i);
    var n := s.actual[i].next;
    if n != NONE {
      assert NodeOk(c, s.actual, n) && UsesOk(c, s, n) && n != i;
      assert Chain(c, s.actual, i) == [i] + Chain(c, s.actual, n);
      assert n in Chain(c, s.actual, i);
    } else {
      assert Chain(c, s.actual, i) == [i];
    }
    if Unused(s, false, i) {
      assert Climb(c, s.actual, i) == [i];
      if IsLeaf(c, i) {
        assert Busy(t, false, i) && !Linked(List(t, false), i) && !UsesOk(c, t, i);
      } else {
        forall j | j in c.tuner ensures UsesOk(c, t, j) {
          assert UsesOk(c, s, j);
        }
      }
    }
  }

  // ---------------------------------------------------------------- whole runs

  datatype Step = AllocateStep(simulate: bool, score: Score) | ReleaseStep(simulate: bool, fe: int)

  /** A release gives back a frontend in use; real steps wait until no simulated frontend is in use. */
  ghost predicate Legal(c: Config, s: State, step: Step) {
    && (step.simulate || AtRest(s))
    && (step.ReleaseStep? ==>
          step.fe in c.tuner && step.fe in List(s, step.simulate) && List(s, step.simulate)[step.fe].inuse > 0)
  }

  /** One step. (It is given a meaning outside Structure only so that a run can be stated without it.) */
  ghost function Next(c: Config, s: State, step: Step): (t: State) {
    if !Structure(c, s) then s
    else match step
      case AllocateStep(simulate, score) =>
        ChoiceIsLegal(c, s, score, simulate);
        var r := Allocate(c, s, score, simulate);
        if r.Allocated? then Take(c, s, simulate, r.fe, r.root) else s
      case ReleaseStep(simulate, fe) =>
        if fe in c.tuner then Release(c, s, simulate, fe) else s
  }

  ghost predicate IsRun(c: Config, ss: seq<State>, steps: seq<Step>) {
    && |ss| == |steps| + 1
    && forall k {:trigger steps[k]} :: 0 <= k < |steps| ==>
      Legal(c, ss[k], steps[k]) && ss[k + 1] == Next(c, ss[k], steps[k])
  }

  /** At rest, real steps find both lists alike. */
  lemma AtRestIsAlike(c: Config, s: State, fe: int, root: int)
    requires Inv(c, s) && AtRest(s) && fe in c.tuner
    ensures ReleasesAlike(c, s, fe)
    ensures IsLeaf(c, fe) && IsRoot(c, root) && !Linked(s.actual, fe) ==> AddsAlike(c, s, fe, root)
  {
    MirrorAtRest(c, s);
    if IsLeaf(c, fe) {
      MirroredIsAlike(c, s, fe, root);
    }
  }

  lemma NextKeepsInv(c: Config, s: State, step: Step)
    requires Inv(c, s) && Legal(c, s, step)
    ensures Inv(c, Next(c, s, step))
    ensures !step.simulate ==> AtRest(Next(c, s, step))
    ensures step.simulate ==> SimFrame(c, s, Next(c, s, step))
  {
    match step
    case AllocateStep(simulate, score) =>
      ChoiceIsLegal(c, s, score, simulate);
      var r := Allocate(c, s, score, simulate);
      if r.Allocated? {
        if !simulate { AtRestIsAlike(c, s, r.fe, r.root); }
        TakeKeepsInv(c, s, simulate, r.fe, r.root);
        if simulate { TakeIsInFrame(c, s, r.fe, r.root); }
      }
    case ReleaseStep(simulate, fe) =>
      if !simulate { AtRestIsAlike(c, s, fe, NONE); }
      ReleaseKeepsInv(c, s, simulate, fe);
      if simulate { ReleaseIsInFrame(c, s, fe); }
  }

  // ---------------------------------------------------------------- use counts

  /**
   What a step adds to the count of slot i in one of the lists: 1 for what it allocates, -1 for what it gives back.
   */
  ghost function Change(c: Config, s: State, step: Step, simulate: bool, i: int): (d: int)
    requires Structure(c, s)
  {
    if step.simulate != simulate then 0
    else match step
      case AllocateStep(_, score) =>
        var r := Allocate(c, s, score, simulate);
        if r.Allocated? && r.fe == i then 1 else 0
      case ReleaseStep(_, fe) => if fe == i then -1 else 0
  }

  /** From s to t, d is added to the use count of fe in one list, and every other count in both lists is as it was. */
  ghost predicate Counts(c: Config, s: State, t: State, simulate: bool, fe: int, d: int) {
    forall b, i :: i in c.tuner ==>
      && i in List(t, b) && i in List(s, b)
      && List(t, b)[i].inuse == List(s, b)[i].inuse + (if b == simulate && i == fe then d else 0)
  }

  /**
   A frontend that is allocated was not in use; its count goes up by one, and by an allocation nothing else is
   counted.
   */
  lemma AllocationCounts(c: Config, s: State, simulate: bool, score: Score)
    requires Inv(c, s) && (simulate || AtRest(s))
    ensures var r, t := Allocate(c, s, score, simulate), Next(c, s, AllocateStep(simulate, score));
      && (!r.Allocated? ==> t == s)
      && (r.Allocated? ==> r.fe in c.tuner && r.fe in c.slots && List(s, simulate)[r.fe].inuse == 0)
      && (r.Allocated? ==> Counts(c, s, t, simulate, r.fe, 1))
  {
    ChoiceIsLegal(c, s, score, simulate);
    var r := Allocate(c, s, score, simulate);
    if r.Allocated? {
      var k := ScanFindsFirstBest(c, s, score, simulate, |c.slots|);
      if r.root != NONE {
        AddLinkKeepsUses(c, s, simulate, r.fe, r.root);
      }
      forall b, i | i in c.tuner
        ensures List(Next(c, s, AllocateStep(simulate, score)), b)[i].inuse ==
          List(s, b)[i].inuse + (if b == simulate && i == r.fe then 1 else 0)
      {
      }
    }
  }

  /** A release takes one use away from that frontend, and from no other. */
  lemma ReleaseCounts(c: Config, s: State, simulate: bool, fe: int)
    requires Inv(c, s) && fe in c.tuner
    ensures Counts(c, s, Next(c, s, ReleaseStep(simulate, fe)), simulate, fe, -1)
  {
    ReleaseUses(c, s, simulate, fe);
  }

  /** What the first k steps of a run have added to a count. */
  ghost function Balance(c: Config, ss: seq<State>, steps: seq<Step>, simulate: bool, i: int, k: nat): (n: int)
    requires |ss| == |steps| + 1 && k <= |steps| && forall j :: 0 <= j < |ss| ==> Structure(c, ss[j])
  {
    if k == 0 then 0
    else Balance(c, ss, steps, simulate, i, k - 1) + Change(c, ss[k - 1], steps[k - 1], simulate, i)
  }

  /** In every run, a use count is the number of allocations of the frontend less the number of its releases. */
  lemma {:induction false} UsesAreBalanced(c: Config, ss: seq<State>, steps: seq<Step>, simulate: bool, i: int, k: nat)
    requires IsRun(c, ss, steps) && Initial(c, ss[0]) && k < |ss| && i in c.tuner
    ensures forall j :: 0 <= j < |ss| ==> Structure(c, ss[j])
    ensures i in List(ss[k], simulate)
    ensures List(ss[k], simulate)[i].inuse == Balance(c, ss, steps, simulate, i, k)
    decreases k
  {
    hide Next, Legal, Structure, Change, Mirrored;
    forall j | 0 <= j < |ss| ensures Structure(c, ss[j]) {
      RunsKeepInv(c, ss, steps, j);
    }
    if k == 0 {
      var f := List(ss[0], simulate)[i];
    } else {
      UsesAreBalanced(c, ss, steps, simulate, i, k - 1);
      RunsKeepInv(c, ss, steps, k - 1);
      assert Legal(c, ss[k - 1], steps[k - 1]) && ss[k] == Next(c, ss[k - 1], steps[k - 1]);
      OneStepCounts(c, ss[k - 1], steps[k - 1], simulate, i);
    }
  }

  lemma OneStepCounts(c: Config, s: State, step: Step, simulate: bool, i: int)
    requires Inv(c, s) && Legal(c, s, step) && i in c.tuner
    ensures var t := Next(c, s, step);
      && i in List(t, simulate) && i in List(s, simulate)
      && List(t, simulate)[i].inuse == List(s, simulate)[i].inuse + Change(c, s, step, simulate, i)
  {
    match step
    case AllocateStep(b, score) => AllocationCounts(c, s, b, score);
    case ReleaseStep(b, fe) => ReleaseCounts(c, s, b, fe);
  }

  /** What has been allocated is not handed out again before it is released, whatever the scores. */
  lemma {:induction false} NotAllocatedTwice(c: Config, ss: seq<State>, steps: seq<Step>, simulate: bool, fe: int,
      j: nat, k: nat, score: Score)
    requires IsRun(c, ss, steps) && Initial(c, ss[0]) && j < k < |ss|
    requires Inv(c, ss[j]) && Inv(c, ss[k])
    requires steps[j].AllocateStep? && steps[j].simulate == simulate
    requires Allocate(c, ss[j], steps[j].score, simulate).Allocated?
    requires Allocate(c, ss[j], steps[j].score, simulate).fe == fe
    requires forall m :: j < m < k ==> steps[m] != ReleaseStep(simulate, fe)
    ensures fe in List(ss[k], simulate) && List(ss[k], simulate)[fe].inuse > 0
    ensures var r := Allocate(c, ss[k], score, simulate); r.Allocated? ==> r.fe != fe
    decreases k
  {
    assert Legal(c, ss[j], steps[j]) && ss[j + 1] == Next(c, ss[j], steps[j]);
    AllocationCounts(c, ss[j], simulate, steps[j].score);
    if k > j + 1 {
      RunsKeepInv(c, ss, steps, k - 1);
      NotAllocatedTwice(c, ss, steps, simulate, fe, j, k - 1, score);
      assert Legal(c, ss[k - 1], steps[k - 1]) && ss[k] == Next(c, ss[k - 1], steps[k - 1]);
      OneStepCounts(c, ss[k - 1], steps[k - 1], simulate, fe);
    }
    NotInUse(c, ss[k], simulate, score);
  }

  /** What is allocated was not in use. */
  lemma NotInUse(c: Config, s: State, simulate: bool, score: Score)
    requires Structure(c, s)
    ensures var r := Allocate(c, s, score, simulate);
      r.Allocated? ==> r.fe in List(s, simulate) && List(s, simulate)[r.fe].inuse == 0
  {
    ChoiceIsLegal(c, s, score, simulate);
  }

  /** Every state of every run from a freshly configured receiver satisfies the invariant. */
  lemma {:induction false} RunsKeepInv(c: Config, ss: seq<State>, steps: seq<Step>, k: nat)
    requires IsRun(c, ss, steps) && Initial(c, ss[0]) && k < |ss|
    ensures Inv(c, ss[k])
    ensures AtRest(ss[k]) ==> Mirrored(c, ss[k])
    decreases k
  {
    if k == 0 {
      InitialIsInv(c, ss[0]);
    } else {
      RunsKeepInv(c, ss, steps, k - 1);
      assert Legal(c, ss[k - 1], steps[k - 1]);
      NextKeepsInv(c, ss[k - 1], steps[k - 1]);
    }
    if AtRest(ss[k]) { MirrorAtRest(c, ss[k]); }
  }

  /** A simulation episode that has given everything back leaves the state it found. */
  lemma {:induction false} EpisodeIsInvisible(c: Config, ss: seq<State>, steps: seq<Step>)
    requires IsRun(c, ss, steps) && Inv(c, ss[0]) && AtRest(ss[0])
    requires forall k :: 0 <= k < |steps| ==> steps[k].simulate
    requires AtRest(ss[|steps|])
    ensures ss[|steps|] == ss[0]
  {
    EpisodeFrame(c, ss, steps, |steps|);
    EpisodeRestores(c, ss[0], ss[|steps|]);
  }

  lemma {:induction false} EpisodeFrame(c: Config, ss: seq<State>, steps: seq<Step>, k: nat)
    requires IsRun(c, ss, steps) && Inv(c, ss[0]) && k < |ss|
    requires forall j :: 0 <= j < |steps| ==> steps[j].simulate
    ensures Inv(c, ss[k]) && SimFrame(c, ss[0], ss[k])
    decreases k
  {
    if k > 0 {
      EpisodeFrame(c, ss, steps, k - 1);
      assert Legal(c, ss[k - 1], steps[k - 1]);
      NextKeepsInv(c, ss[k - 1], steps[k - 1]);
      FrameIsTransitive(c, ss[0], ss[k - 1], ss[k]);
    }
  }

  lemma FrameIsTransitive(c: Config, s: State, t: State, u: State)
    requires Structure(c, s) && Structure(c, t) && Structure(c, u) && SimFrame(c, s, t) && SimFrame(c, t, u)
    ensures SimFrame(c, s, u)
  {
    forall i | i in c.tuner && !IsLeaf(c, i)
      ensures KeepsBits(s.lnb, u.lnb, i)
    {
      assert KeepsBits(s.lnb, t.lnb, i) && KeepsBits(t.lnb, u.lnb, i);
    }
  }
}
