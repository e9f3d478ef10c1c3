/**
 Real steps and queries in the middle of a simulation episode: exactly when
 they keep what the simulated steps rely on.
 */
module FbcEpisodes {
  import opened FbcChains
  import opened FbcStates
  import opened Allocator

  /** connectLink of a leaf between p and n, where these need not be neighbours. */
  lemma ConnectShape(c: Config, L: Fes, leaf: int, p: int, n: int)
    requires ChainsOk(c, L) && IsLeaf(c, leaf) && p in L && p != leaf && n != leaf && n != p
    requires IsRoot(c, p) || (IsLeaf(c, p) && Linked(L, p) && p < leaf)
    requires n == NONE || (IsLeaf(c, n) && Linked(L, n) && leaf < n)
    ensures ChainsOk(c, SetEnabled(Connect(L, leaf, p, n), leaf, true)) <==>
              if Linked(L, leaf) then L[p].next == leaf && (n == NONE || L[leaf].next == n) else L[p].next == n
  {
    var M := SetEnabled(Connect(L, leaf, p, n), leaf, true);
    var a, b, m := L[leaf].prev, L[leaf].next, L[p].next;
    assert NodeOk(c, L, leaf) && NodeOk(c, L, p);
    if a in L { assert NodeOk(c, L, a); }
    if b in L { assert NodeOk(c, L, b); }
    if m in L { assert NodeOk(c, L, m); }
    if n in L { assert NodeOk(c, L, n) && NodeOk(c, L, L[n].prev); }
    if Linked(L, leaf) {
      if m == leaf && (n == NONE || b == n) {
        assert M == L;
      } else {
        var x, y := if b in L then b else a, if n in L then L[n].prev else a;
        assert !(NodeOk(c, M, a) && NodeOk(c, M, x) && NodeOk(c, M, y));
      }
    } else if m == n {
      InsertedShape(c, L, M, leaf, p, n);
    } else {
      var x, y := if m in L then m else p, if n in L then L[n].prev else p;
      assert !(NodeOk(c, M, x) && NodeOk(c, M, y));
    }
  }

  /** disconnectLink of a linked leaf from p and n, where these need not be its neighbours. */
  lemma DisconnectShape(c: Config, L: Fes, leaf: int, p: int, n: int)
    requires ChainsOk(c, L) && IsLeaf(c, leaf) && Linked(L, leaf) && p in L && p != leaf && n != leaf && n != p
    requires IsRoot(c, p) || (IsLeaf(c, p) && Linked(L, p) && p < leaf)
    requires n == NONE || (IsLeaf(c, n) && Linked(L, n) && leaf < n)
    ensures ChainsOk(c, SetEnabled(Disconnect(L, leaf, p, n), leaf, false)) <==> L[leaf].prev == p && L[leaf].next == n
  {
    var M := SetEnabled(Disconnect(L, leaf, p, n), leaf, false);
    var a, b := L[leaf].prev, L[leaf].next;
    assert NodeOk(c, L, leaf) && NodeOk(c, L, p) && NodeOk(c, L, a);
    if b in L { assert NodeOk(c, L, b); }
    if n in L { assert NodeOk(c, L, n) && NodeOk(c, L, L[n].prev); }
    if a == p && b == n {
      assert M == Remove(c, L, leaf);
      RemoveKeepsShape(c, L, leaf);
    } else {
      var x, y := if b in L then b else a, if n in L then L[n].prev else a;
      assert !(NodeOk(c, M, a) && NodeOk(c, M, leaf) && NodeOk(c, M, x) && NodeOk(c, M, y));
    }
  }

  /** A real addLink leaves a well formed simulated chain exactly where it finds the places alike. */
  lemma RealAddLinkShape(c: Config, s: State, leaf: int, top: int)
    requires Structure(c, s) && IsLeaf(c, leaf) && IsRoot(c, top) && !Linked(s.actual, leaf)
    ensures ChainsOk(c, AddLink(c, s, false, leaf, top).sim) <==> AddsAlike(c, s, leaf, top)
  {
    var p := InsertPoint(c, s.actual, top, leaf);
    assert NodeOk(c, s.actual, p) && NodeOk(c, s.actual, leaf);
    var n := s.actual[p].next;
    if IsLeaf(c, p) { assert LeafOk(c, s, p); }
    if n != NONE { assert NodeOk(c, s.actual, n) && LeafOk(c, s, n); }
    ConnectShape(c, s.sim, leaf, p, n);
  }

  /** And so does a real unLink of a leaf that is not used any more. */
  lemma RealUnlinkShape(c: Config, s: State, leaf: int)
    requires Structure(c, s) && IsLeaf(c, leaf) && Linked(s.actual, leaf) && !IsUsed(s, leaf)
    ensures ChainsOk(c, Unlink(c, s, false, leaf).sim) <==> RemovesAlike(s, leaf)
  {
    LinkedIsNotUnicable(c, s, leaf);
    assert NodeOk(c, s.actual, leaf) && LeafOk(c, s, leaf);
    var p, n := s.actual[leaf].prev, s.actual[leaf].next;
    assert NodeOk(c, s.actual, p);
    if IsLeaf(c, p) { assert LeafOk(c, s, p); }
    if n != NONE { assert NodeOk(c, s.actual, n) && LeafOk(c, s, n); }
    DisconnectShape(c, s.sim, leaf, p, n);
  }

  /** A real allocation inside an episode keeps the invariant exactly if it links nothing or finds the places alike. */
  lemma RealTakeInside(c: Config, s: State, fe: int, root: int)
    requires Inv(c, s) && CanTake(c, s, false, fe, root)
    ensures Inv(c, Take(c, s, false, fe, root)) <==> root == NONE || AddsAlike(c, s, fe, root)
  {
    if root == NONE || AddsAlike(c, s, fe, root) {
      TakeKeepsInv(c, s, false, fe, root);
    } else {
      RealAddLinkShape(c, s, fe, root);
      assert Take(c, s, false, fe, root).sim == AddLink(c, s, false, fe, root).sim;
    }
  }

  /**
   A real release inside an episode keeps it exactly if it is not the last use of a leaf, or is the last of all and
   finds the places alike.
   */
  lemma RealReleaseInside(c: Config, s: State, fe: int)
    requires Inv(c, s) && fe in c.tuner && s.actual[fe].inuse > 0
    ensures Inv(c, Release(c, s, false, fe)) <==> ReleasesAlike(c, s, fe)
  {
    if ReleasesAlike(c, s, fe) {
      ReleaseKeepsInv(c, s, false, fe);
    } else {
      UseKeepsStructure(c, s, false, fe, -1);
      assert UsesOk(c, s, fe);
      var s1, t := UsesAfterRelease(s, false, fe), Release(c, s, false, fe);
      if IsUsed(s1, fe) {
        assert t == s1;
        assert !UsesOk(c, t, fe);
      } else {
        RealUnlinkShape(c, s1, fe);
      }
    }
  }

  /** Leaf and top have an LNB bit in common. */
  ghost predicate SharesBit(lnb: seq<set<int>>, leaf: int, top: int) {
    exists k :: 0 <= k < |lnb| && top in lnb[k] && leaf in lnb[k]
  }

  /**
   A real query scores an unlinked leaf by a probe. Inside an episode the leaf may be linked in the simulated list,
   and have LNB bits there: the probe leaves the state as it was, or at least well formed, exactly if it has none of
   those of the probed root.
   */
  lemma RealProbeInside(c: Config, s: State, leaf: int, top: int)
    requires Structure(c, s) && IsLeaf(c, leaf) && IsRoot(c, top) && !Linked(s.actual, leaf)
    ensures var u := Unprobe(Probe(c, s, false, leaf, top), false, leaf, Last(c, s.actual, top), top);
            && u.actual == s.actual && u.sim == s.sim
            && (u == s <==> !SharesBit(s.lnb, leaf, top))
            && (Structure(c, u) <==> !SharesBit(s.lnb, leaf, top))
    ensures SharesBit(s.lnb, leaf, top) ==> Linked(s.sim, leaf)
  {
    assert LeafOk(c, s, leaf);
    ProbeRestoresLists(c, s, leaf, top);
    var u := Unprobe(Probe(c, s, false, leaf, top), false, leaf, Last(c, s.actual, top), top);
    assert Structure(c, u) ==> LeafOk(c, u, leaf);
    if SharesBit(s.lnb, leaf, top) {
      var k :| 0 <= k < |s.lnb| && top in s.lnb[k] && leaf in s.lnb[k];
      ProbeLosesSharedBits(c, s, false, leaf, top, k);
      var t := Top(c, s.sim, leaf);
      assert leaf !in u.lnb[k] && t in s.lnb[k];
      assert t in UpdateMask(s.lnb, leaf, top, false)[k];
      assert t in u.lnb[k];
    } else {
      ProbeIsUndone(c, s, false, leaf, top);
    }
  }

  lemma ProbeRestoresLists(c: Config, s: State, leaf: int, top: int)
    requires Structure(c, s) && IsLeaf(c, leaf) && IsRoot(c, top) && !Linked(s.actual, leaf)
    ensures var u := Unprobe(Probe(c, s, false, leaf, top), false, leaf, Last(c, s.actual, top), top);
            u.actual == s.actual && u.sim == s.sim
  {
    var L := s.actual;
    var z := Last(c, L, top);
    assert NodeOk(c, L, leaf);
    ChainIsWalk(c, L, top);
    ChainMembers(c, L, top, leaf);
    assert z in Chain(c, L, top);
  }
}
