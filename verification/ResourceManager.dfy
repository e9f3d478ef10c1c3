/**
 The frontends as the heap objects they are: their links are pointers, and every
 operation works in place. View reads the objects off as a value; each method
 is proved to change that value exactly as the functions of FbcStates and
 Allocator say.
 */
module ResourceManager {
  import opened FbcChains
  import opened FbcStates
  import opened Allocator

  /** A registered frontend, with the linked-pointer data of its tuner. */
  class Frontend {
    const slot: int
    const simulate: bool
    var inuse: int
    var enabled: bool
    var prev: Frontend?
    var next: Frontend?

    constructor (slot: int, simulate: bool, enabled: bool)
      ensures this.slot == slot && this.simulate == simulate && this.enabled == enabled
      ensures inuse == 0 && prev == null && next == null
    {
      this.slot, this.simulate, this.enabled := slot, simulate, enabled;
      inuse, prev, next := 0, null, null;
    }
  }

  class Lnb {
    const satCrIdx: int
    var slotMask: set<int>

    constructor (satCrIdx: int, slotMask: set<int>)
      ensures this.satCrIdx == satCrIdx && this.slotMask == slotMask
    {
      this.satCrIdx, this.slotMask := satCrIdx, slotMask;
    }

    method Update(dest: int, src: int, remove: bool)
      modifies this
      ensures slotMask == MaskAfter(old(slotMask), dest, src, remove)
    {
      if src in slotMask {
        if !remove {
          slotMask := slotMask + {dest};
        } else {
          slotMask := slotMask - {dest};
        }
      }
    }
  }

  function LinkOf(f: Frontend?): (i: int) {
    if f == null then NONE else f.slot
  }

  function FeOf(f: Frontend): (v: Fe)
    reads f
  {
    Fe(f.inuse, f.enabled, LinkOf(f.prev), LinkOf(f.next))
  }

  predicate InTable(fe: map<int, Frontend>, f: Frontend?) {
    f != null ==> f.slot in fe && fe[f.slot] == f
  }

  /** A frontend list, looked up by slot; Config.slots gives its order. */
  class FrontendList {
    const cfg: Config
    const simulate: bool
    const fe: map<int, Frontend>
    ghost const repr: set<object>

    constructor (cfg: Config, simulate: bool, fe: map<int, Frontend>)
      requires fe.Keys == cfg.tuner.Keys && NONE !in fe
      requires forall i :: i in fe ==> fe[i].slot == i && fe[i].simulate == simulate
      requires forall i :: i in fe ==> InTable(fe, fe[i].prev) && InTable(fe, fe[i].next)
      ensures Valid() && this.cfg == cfg && this.simulate == simulate && this.fe == fe
      ensures repr == set i | i in fe :: fe[i]
    {
      this.cfg, this.simulate, this.fe := cfg, simulate, fe;
      this.repr := set i | i in fe :: fe[i];
    }

    /** One frontend per slot. None of this ever changes. */
    ghost predicate Fixed() {
      && fe.Keys == cfg.tuner.Keys && NONE !in fe
      && (forall i :: i in fe ==> fe[i] in repr && fe[i].slot == i && fe[i].simulate == simulate)
    }

    /** No pointer leaves the list. */
    ghost predicate Closed()
      requires Fixed()
      reads repr
    {
      forall i :: i in fe ==> InTable(fe, fe[i].prev) && InTable(fe, fe[i].next)
    }

    ghost predicate Valid()
      reads repr
    {
      Fixed() && Closed()
    }

    function Fes(): (L: Fes)
      requires Fixed()
      reads repr
      ensures L.Keys == fe.Keys
    {
      map i | i in fe :: FeOf(fe[i])
    }

    lemma FesAre(L: Fes)
      requires Fixed()
      requires L.Keys == fe.Keys && forall i :: i in fe ==> L[i] == FeOf(fe[i])
      ensures Fes() == L
    {
      assert forall i :: i in L ==> Fes()[i] == L[i];
    }

    /** What the map says of a frontend of the list. */
    lemma FeAt(f: Frontend)
      requires Valid() && Has(f)
      ensures f.slot in Fes() && Fes()[f.slot] == FeOf(f)
      ensures f.prev == null <==> LinkOf(f.prev) == NONE
      ensures f.next == null <==> LinkOf(f.next) == NONE
      ensures f.prev != null ==> Has(f.prev)
      ensures f.next != null ==> Has(f.next)
    {
      assert InTable(fe, fe[f.slot].prev) && InTable(fe, fe[f.slot].next);
    }

    predicate Has(f: Frontend) {
      f.slot in fe && fe[f.slot] == f
    }

    method SetNext(f: Frontend, g: Frontend?)
      requires Valid() && Has(f) && InTable(fe, g)
      modifies f
      ensures Valid()
      ensures Fes() == var L := old(Fes()); L[f.slot := L[f.slot].(next := LinkOf(g))]
    {
      ghost var L := Fes();
      ghost var M := L[f.slot := L[f.slot].(next := LinkOf(g))];
      assert forall i :: i in fe && i != f.slot ==> fe[i] != f;
      f.next := g;
      FesAre(M);
    }

    method SetPrev(f: Frontend, g: Frontend?)
      requires Valid() && Has(f) && InTable(fe, g)
      modifies f
      ensures Valid()
      ensures Fes() == var L := old(Fes()); L[f.slot := L[f.slot].(prev := LinkOf(g))]
    {
      ghost var L := Fes();
      ghost var M := L[f.slot := L[f.slot].(prev := LinkOf(g))];
      assert forall i :: i in fe && i != f.slot ==> fe[i] != f;
      f.prev := g;
      FesAre(M);
    }

    method SetEnabled(f: Frontend, on: bool)
      requires Valid() && Has(f)
      modifies f
      ensures Valid()
      ensures Fes() == FbcChains.SetEnabled(old(Fes()), f.slot, on)
    {
      ghost var L := Fes();
      ghost var M := FbcChains.SetEnabled(L, f.slot, on);
      assert forall i :: i in fe && i != f.slot ==> fe[i] != f;
      f.enabled := on;
      FesAre(M);
    }

    /** inc_use and dec_use. */
    method AddUse(f: Frontend, d: int)
      requires Valid() && Has(f)
      modifies f
      ensures Valid()
      ensures Fes() == FbcChains.AddUse(old(Fes()), f.slot, d)
    {
      ghost var L := Fes();
      ghost var M := FbcChains.AddUse(L, f.slot, d);
      assert forall i :: i in fe && i != f.slot ==> fe[i] != f;
      f.inuse := f.inuse + d;
      FesAre(M);
    }

    method ConnectLink(link: Frontend, prev: Frontend, next: Frontend?)
      requires Valid() && Has(link) && Has(prev) && InTable(fe, next)
      modifies repr
      ensures Valid()
      ensures Fes() == Connect(old(Fes()), link.slot, prev.slot, LinkOf(next))
    {
      SetNext(prev, link);
      SetPrev(link, prev);
      if next != null {
        SetNext(link, next);
        SetPrev(next, link);
      }
    }

    method DisconnectLink(link: Frontend, prev: Frontend, next: Frontend?)
      requires Valid() && Has(link) && Has(prev) && InTable(fe, next)
      modifies repr
      ensures Valid()
      ensures Fes() == Disconnect(old(Fes()), link.slot, prev.slot, LinkOf(next))
    {
      if next != null {
        SetNext(prev, next);
        SetPrev(next, prev);
        SetPrev(link, null);
        SetNext(link, null);
      } else {
        SetNext(prev, null);
        SetPrev(link, null);
      }
    }

    /** The search loop of addLink. */
    method FindPlace(link: Frontend, top: Frontend) returns (prev: Frontend, next: Frontend?)
      requires Valid() && Has(link) && Has(top) && ChainsOk(cfg, Fes())
      requires IsLeaf(cfg, link.slot) && !Linked(Fes(), link.slot) && IsRoot(cfg, top.slot)
      ensures Has(prev) && next == prev.next && InTable(fe, next)
      ensures prev.slot == InsertPoint(cfg, Fes(), top.slot, link.slot)
    {
      ghost var L := Fes();
      prev, next := top, top.next;
      ghost var go := InsertPointStep(cfg, L, prev.slot, link.slot);
      FeAt(prev);
      while next != null && next.slot <= link.slot
        invariant Has(prev) && next == prev.next && InTable(fe, next)
        invariant IsRoot(cfg, prev.slot) || (IsLeaf(cfg, prev.slot) && Linked(L, prev.slot) && prev.slot < link.slot)
        invariant InsertPoint(cfg, L, prev.slot, link.slot) == InsertPoint(cfg, L, top.slot, link.slot)
        invariant go <==> next != null && next.slot <= link.slot
        invariant go ==>
          IsLeaf(cfg, next.slot) && Linked(L, next.slot) && next.slot < link.slot
          && Depth(cfg, next.slot) < Depth(cfg, prev.slot)
        invariant go ==> InsertPoint(cfg, L, next.slot, link.slot) == InsertPoint(cfg, L, prev.slot, link.slot)
        invariant !go ==> InsertPoint(cfg, L, prev.slot, link.slot) == prev.slot
        decreases Depth(cfg, prev.slot)
      {
        prev := next;
        next := prev.next;
        go := InsertPointStep(cfg, L, prev.slot, link.slot);
        FeAt(prev);
      }
    }

    /** connectLink, then enable the linked frontend. */
    method Link(link: Frontend, prev: Frontend, next: Frontend?)
      requires Valid() && Has(link) && Has(prev) && InTable(fe, next)
      modifies repr
      ensures Valid()
      ensures Fes() == FbcChains.SetEnabled(Connect(old(Fes()), link.slot, prev.slot, LinkOf(next)), link.slot, true)
    {
      ConnectLink(link, prev, next);
      SetEnabled(link, true);
    }

    /** disconnectLink, then disable the unlinked frontend. */
    method Unlink(link: Frontend, prev: Frontend, next: Frontend?)
      requires Valid() && Has(link) && Has(prev) && InTable(fe, next)
      modifies repr
      ensures Valid()
      ensures Fes() == FbcChains.SetEnabled(Disconnect(old(Fes()), link.slot, prev.slot, LinkOf(next)), link.slot,
        false)
    {
      DisconnectLink(link, prev, next);
      SetEnabled(link, false);
    }

    /** xs is the way from f to the top of its chain. */
    method GetTop(f: Frontend, ghost xs: seq<int>) returns (t: Frontend)
      requires Valid() && Has(f) && IsClimb(Fes(), xs) && xs[0] == f.slot
      ensures Has(t) && t.slot == xs[|xs| - 1]
    {
      t := f;
      ghost var k := 0;
      while t.prev != null
        invariant Has(t) && 0 <= k < |xs| && t.slot == xs[k]
        decreases |xs| - k
      {
        FeAt(t);
        assert k < |xs| - 1;
        t := t.prev;
        k := k + 1;
      }
      FeAt(t);
    }

    /** xs is the walk from f to the end of its chain. */
    method GetLast(f: Frontend, ghost xs: seq<int>) returns (z: Frontend)
      requires Valid() && Has(f) && IsWalk(Fes(), xs) && xs[0] == f.slot
      ensures Has(z) && z.slot == xs[|xs| - 1]
    {
      z := f;
      ghost var k := 0;
      while z.next != null
        invariant Has(z) && 0 <= k < |xs| && z.slot == xs[k]
        decreases |xs| - k
      {
        FeAt(z);
        assert k < |xs| - 1;
        z := z.next;
        k := k + 1;
      }
      FeAt(z);
    }
  }

  /** The slot masks of the satellite equipment control, LNBs 0 to m_lnbidx. */
  class Sec {
    const satCr: seq<int>
    const lnbs: seq<Lnb>
    ghost const repr: set<object>

    constructor (lnbs: seq<Lnb>, satCr: seq<int>)
      requires |lnbs| == |satCr| && forall k :: 0 <= k < |lnbs| ==> lnbs[k].satCrIdx == satCr[k]
      requires forall j, k :: 0 <= j < k < |lnbs| ==> lnbs[j] != lnbs[k]
      ensures Valid() && this.lnbs == lnbs && this.satCr == satCr
      ensures repr == set k | 0 <= k < |lnbs| :: lnbs[k]
    {
      this.lnbs, this.satCr := lnbs, satCr;
      this.repr := set k | 0 <= k < |lnbs| :: lnbs[k];
    }

    ghost predicate Valid() {
      && |lnbs| == |satCr|
      && (forall k :: 0 <= k < |lnbs| ==> lnbs[k].satCrIdx == satCr[k] && lnbs[k] in repr)
      && (forall j, k :: 0 <= j < k < |lnbs| ==> lnbs[j] != lnbs[k])
    }

    function Masks(n: nat): (m: seq<set<int>>)
      requires n <= |lnbs| && Valid()
      reads repr
      ensures |m| == n && forall k :: 0 <= k < n ==> m[k] == lnbs[k].slotMask
    {
      if n == 0 then [] else Masks(n - 1) + [lnbs[n - 1].slotMask]
    }

    function AllMasks(): (m: seq<set<int>>)
      requires Valid()
      reads repr
      ensures |m| == |lnbs|
    {
      Masks(|lnbs|)
    }

    method IsUnicable(slot: int) returns (u: bool)
      requires Valid()
      ensures u == UnicableFrom(satCr, AllMasks(), slot, 0)
    {
      var idx := 0;
      while idx < |lnbs|
        invariant idx <= |lnbs|
        invariant UnicableFrom(satCr, AllMasks(), slot, 0) == UnicableFrom(satCr, AllMasks(), slot, idx)
      {
        if slot in lnbs[idx].slotMask {
          return lnbs[idx].satCrIdx != NONE;
        }
        idx := idx + 1;
      }
      return false;
    }

    method UpdateSlotMask(dest: int, src: int, remove: bool)
      requires Valid()
      modifies repr
      ensures AllMasks() == UpdateMask(old(AllMasks()), dest, src, remove)
    {
      ghost var was := AllMasks();
      ghost var want := UpdateMask(was, dest, src, remove);
      var idx := 0;
      while idx < |lnbs|
        invariant idx <= |lnbs|
        invariant forall k :: 0 <= k < idx ==> lnbs[k].slotMask == want[k]
        invariant forall k :: idx <= k < |lnbs| ==> lnbs[k].slotMask == was[k]
      {
        lnbs[idx].Update(dest, src, remove);
        idx := idx + 1;
      }
      assert AllMasks() == want;
    }
  }

  /** The resource manager with its FBC tuner manager. */
  class Manager {
    const cfg: Config
    const frontends: FrontendList
    const simulated: FrontendList
    const sec: Sec

    constructor (cfg: Config, frontends: FrontendList, simulated: FrontendList, sec: Sec)
      requires frontends.Valid() && frontends.cfg == cfg && !frontends.simulate
      requires simulated.Valid() && simulated.cfg == cfg && simulated.simulate
      requires sec.Valid() && sec.satCr == cfg.satCr
      requires frontends.repr !! simulated.repr !! sec.repr
      ensures Valid() && this.cfg == cfg && this.frontends == frontends && this.simulated == simulated
        && this.sec == sec
    {
      this.cfg, this.frontends, this.simulated, this.sec := cfg, frontends, simulated, sec;
    }

    ghost predicate Fixed() {
      && frontends.Fixed() && frontends.cfg == cfg && !frontends.simulate
      && simulated.Fixed() && simulated.cfg == cfg && simulated.simulate
      && frontends.repr !! simulated.repr !! sec.repr
      && sec.Valid() && sec.satCr == cfg.satCr
    }

    ghost predicate Valid()
      reads frontends.repr, simulated.repr
    {
      Fixed() && frontends.Closed() && simulated.Closed()
    }

    function Fs(simulate: bool): (fs: FrontendList) {
      if simulate then simulated else frontends
    }

    function View(): (s: State)
      requires Fixed()
      reads frontends.repr, simulated.repr, sec.repr
    {
      State(frontends.Fes(), simulated.Fes(), sec.AllMasks())
    }

    // -------------------------------------------------------------- queries

    /** In use here, or in the other list. */
    method IsFeUsed(f: Frontend) returns (used: bool)
      requires Valid() && Fs(f.simulate).Has(f)
      ensures Valid() && View() == old(View()) && used == IsUsed(View(), f.slot)
    {
      if f.inuse > 0 {
        return true;
      }
      return Fs(!f.simulate).fe[f.slot].inuse > 0;
    }

    method CanLink(f: Frontend) returns (can: bool)
      requires Valid() && Fs(f.simulate).Has(f)
      ensures can == FbcStates.CanLink(cfg, View(), f.simulate, f.slot)
    {
      var u := sec.IsUnicable(f.slot);
      return !(IsRoot(cfg, f.slot) || f.prev != null || f.next != null || u);
    }

    // -------------------------------------------------------------- linking

    /** Link in one list, and give the leaf the LNB bits of slot top. */
    method LinkIn(link: Frontend, prev: Frontend, next: Frontend?, simulate: bool)
      requires Valid() && Fs(simulate).Has(link) && Fs(simulate).Has(prev) && InTable(Fs(simulate).fe, next)
      modifies Fs(simulate).repr
      ensures Valid()
      ensures var s := old(View());
              View() == WithList(s, simulate,
                FbcChains.SetEnabled(Connect(List(s, simulate), link.slot, prev.slot, LinkOf(next)), link.slot, true))
    {
      if simulate {
        ghost var L := frontends.Fes();
        simulated.Link(link, prev, next);
        frontends.FesAre(L);
      } else {
        ghost var L := simulated.Fes();
        frontends.Link(link, prev, next);
        simulated.FesAre(L);
      }
    }

    method UnlinkIn(link: Frontend, prev: Frontend, next: Frontend?, simulate: bool)
      requires Valid() && Fs(simulate).Has(link) && Fs(simulate).Has(prev) && InTable(Fs(simulate).fe, next)
      modifies Fs(simulate).repr
      ensures Valid()
      ensures var s := old(View());
              View() == WithList(s, simulate,
                FbcChains.SetEnabled(Disconnect(List(s, simulate), link.slot, prev.slot, LinkOf(next)), link.slot,
                  false))
    {
      if simulate {
        ghost var L := frontends.Fes();
        simulated.Unlink(link, prev, next);
        frontends.FesAre(L);
      } else {
        ghost var L := simulated.Fes();
        frontends.Unlink(link, prev, next);
        simulated.FesAre(L);
      }
    }

    method UpdateLnbSlotMask(dest: int, src: int, remove: bool)
      requires Valid()
      modifies sec.repr
      ensures Valid()
      ensures View() == old(View()).(lnb := UpdateMask(old(View()).lnb, dest, src, remove))
    {
      sec.UpdateSlotMask(dest, src, remove);
    }

    // -------------------------------------------------------------- probing

    method EnterProbe(link: Frontend, top: Frontend, prev: Frontend, simulate: bool)
      requires Valid() && Fs(simulate).Has(link) && Fs(simulate).Has(prev)
      modifies Fs(simulate).repr, sec.repr
      ensures Valid()
      ensures View() == Enter(old(View()), simulate, link.slot, prev.slot, top.slot)
    {
      LinkIn(link, prev, null, simulate);
      UpdateLnbSlotMask(link.slot, top.slot, false);
    }

    method LeaveProbe(link: Frontend, top: Frontend, prev: Frontend, simulate: bool)
      requires Valid() && Fs(simulate).Has(link) && Fs(simulate).Has(prev)
      modifies Fs(simulate).repr, sec.repr
      ensures Valid()
      ensures View() == Unprobe(old(View()), simulate, link.slot, prev.slot, top.slot)
    {
      UnlinkIn(link, prev, null, simulate);
      UpdateLnbSlotMask(link.slot, top.slot, true);
    }

    method GetLast(top: Frontend, simulate: bool, ghost xs: seq<int>) returns (z: Frontend)
      requires Valid() && Fs(simulate).Has(top) && IsWalk(List(View(), simulate), xs) && xs[0] == top.slot
      ensures Valid() && View() == old(View())
      ensures Fs(simulate).Has(z) && z.slot == xs[|xs| - 1]
    {
      z := Fs(simulate).GetLast(top, xs);
    }

    /** While it is probed, the leaf is linked, and last in the chain. */
    lemma ProbedIsLast(link: Frontend, fs: FrontendList, xs: seq<int>)
      requires fs.Valid() && fs.Has(link) && IsWalk(fs.Fes(), xs + [link.slot]) && Linked(fs.Fes(), link.slot)
      ensures link.next == null && link.prev != null
    {
      fs.FeAt(link);
      assert (xs + [link.slot])[|xs|] == link.slot;
    }

    /** One probe of the loop of isCompatibleWith. xs is the walk from top to prev, the end of its chain. */
    method MeasureLeaf(link: Frontend, top: Frontend, prev: Frontend, simulate: bool, score: Score,
        ghost xs: seq<int>) returns (v: int)
      requires Valid() && Fs(simulate).Has(link) && Fs(simulate).Has(prev)
      requires var t := Enter(View(), simulate, link.slot, prev.slot, top.slot);
               IsWalk(List(t, simulate), xs + [link.slot]) && Linked(List(t, simulate), link.slot)
      modifies Fs(simulate).repr, sec.repr
      ensures Valid()
      ensures var t := Enter(old(View()), simulate, link.slot, prev.slot, top.slot);
              View() == Unprobe(t, simulate, link.slot, prev.slot, top.slot) && v == score(t, simulate, link.slot)
    {
      EnterProbe(link, top, prev, simulate);
      v := score(View(), simulate, link.slot);
      ProbedIsLast(link, Fs(simulate), xs);
      assert link.next == null && link.prev != null;
      LeaveProbe(link, top, prev, simulate);
    }

    /** Score a leaf at the end of the chain of top, leaving everything as it was. */
    method ProbeLeaf(link: Frontend, top: Frontend, simulate: bool, score: Score) returns (v: int)
      requires Valid() && Fs(simulate).Has(link) && Fs(simulate).Has(top)
      requires Structure(cfg, View()) && IsLeaf(cfg, link.slot) && IsRoot(cfg, top.slot)
      requires !Linked(List(View(), simulate), link.slot) && NoBits(View().lnb, link.slot)
      modifies Fs(simulate).repr, sec.repr
      ensures Valid() && View() == old(View())
      ensures v == score(Probe(cfg, old(View()), simulate, link.slot, top.slot), simulate, link.slot)
      ensures exists t ::
        IsProbed(cfg, old(View()), t, simulate, link.slot, top.slot) && v == score(t, simulate, link.slot)
    {
      ProbeMeans(cfg, View(), simulate, link.slot, top.slot);
      ghost var xs := ProbeFacts(View(), link.slot, top.slot, simulate);
      var prev := GetLast(top, simulate, xs);
      v := MeasureLeaf(link, top, prev, simulate, score, xs);
    }

    /** What the probe of leaf below top needs to know; xs is the walk from top to the end of its chain. */
    lemma ProbeFacts(s: State, leaf: int, top: int, simulate: bool) returns (xs: seq<int>)
      requires Structure(cfg, s) && IsLeaf(cfg, leaf) && IsRoot(cfg, top)
      requires !Linked(List(s, simulate), leaf) && NoBits(s.lnb, leaf)
      ensures IsWalk(List(s, simulate), xs) && xs[0] == top && xs[|xs| - 1] in List(s, simulate)
        && leaf in List(s, simulate)
      ensures var z := xs[|xs| - 1]; var t := Enter(s, simulate, leaf, z, top);
              && t == Probe(cfg, s, simulate, leaf, top)
              && IsWalk(List(t, simulate), xs + [leaf]) && Linked(List(t, simulate), leaf)
              && Unprobe(t, simulate, leaf, z, top) == s
    {
      xs := Chain(cfg, List(s, simulate), top);
      ChainIsWalk(cfg, List(s, simulate), top);
      ProbeChain(cfg, s, simulate, leaf, top);
      ProbeIsUndone(cfg, s, simulate, leaf, top);
      assert List(Enter(s, simulate, leaf, xs[|xs| - 1], top), simulate)[leaf].prev == xs[|xs| - 1];
    }

    method IsUnicable(f: Frontend) returns (u: bool)
      requires Valid()
      ensures Valid() && View() == old(View()) && u == FbcStates.IsUnicable(cfg, View().lnb, f.slot)
    {
      u := sec.IsUnicable(f.slot);
    }

    function At(simulate: bool, i: int): (f: Frontend)
      requires Fixed() && i in cfg.tuner
      ensures Fs(simulate).Has(f) && f.slot == i && f.simulate == simulate
    {
      Fs(simulate).fe[i]
    }

    /** The tests of the loop of isCompatibleWith, in order. */
    method CanCarry(link: Frontend, it: Frontend, simulate: bool) returns (q: bool)
      requires Valid() && Fs(simulate).Has(link) && Fs(simulate).Has(it)
      ensures Valid() && View() == old(View())
      ensures q == Qualifies(cfg, View(), simulate, link.slot, it.slot)
    {
      Fs(simulate).FeAt(it);
      if !IsFbc(cfg, it.slot) || !IsRoot(cfg, it.slot) || !it.enabled {
        return false;
      }
      if cfg.tuner[link.slot].setId != cfg.tuner[it.slot].setId || it.inuse == 0 || it.prev != null {
        return false;
      }
      var u := IsUnicable(it);
      return !u;
    }

    /** One turn of the loop of isCompatibleWith. */
    method TryRoot(link: Frontend, k: nat, simulate: bool, score: Score, best0: int, root0: Frontend?)
        returns (best: int, root: Frontend?)
      requires Valid() && Fs(simulate).Has(link) && k < |cfg.slots|
      requires Structure(cfg, View()) && IsLeaf(cfg, link.slot)
      requires !Linked(List(View(), simulate), link.slot) && NoBits(View().lnb, link.slot)
      requires InTable(Fs(simulate).fe, root0)
      requires Best(best0, LinkOf(root0)) == BestRoot(cfg, View(), score, simulate, link.slot, k)
      modifies Fs(simulate).repr, sec.repr
      ensures Valid() && View() == old(View())
      ensures Best(best, LinkOf(root)) == BestRoot(cfg, old(View()), score, simulate, link.slot, k + 1)
      ensures InTable(Fs(simulate).fe, root)
    {
      best, root := best0, root0;
      var it := At(simulate, cfg.slots[k]);
      var q := CanCarry(link, it, simulate);
      if q {
        var v := ProbeLeaf(link, it, simulate, score);
        if v > best {
          best, root := v, it;
        }
      }
    }

    /** isCompatibleWith of the FBC manager: the best score below a qualifying root, and that root. */
    method IsCompatibleWith(link: Frontend, simulate: bool, score: Score) returns (best: int, root: Frontend?)
      requires Valid() && Fs(simulate).Has(link)
      requires Structure(cfg, View()) && IsLeaf(cfg, link.slot)
      requires !Linked(List(View(), simulate), link.slot) && NoBits(View().lnb, link.slot)
      modifies Fs(simulate).repr, sec.repr
      ensures Valid() && View() == old(View())
      ensures Best(best, LinkOf(root)) == BestRoot(cfg, old(View()), score, simulate, link.slot, |cfg.slots|)
      ensures InTable(Fs(simulate).fe, root)
    {
      hide Structure, Qualifies, Probe, Bare;
      ghost var s := View();
      best, root := 0, null;
      for k := 0 to |cfg.slots|
        invariant Valid() && View() == s
        invariant Best(best, LinkOf(root)) == BestRoot(cfg, s, score, simulate, link.slot, k)
        invariant InTable(Fs(simulate).fe, root)
      {
        best, root := TryRoot(link, k, simulate, score, best, root);
      }
    }

    // -------------------------------------------------------------- addLink and unLink

    method FindPlace(link: Frontend, top: Frontend, simulate: bool) returns (prev: Frontend, next: Frontend?)
      requires Valid() && Fs(simulate).Has(link) && Fs(simulate).Has(top)
      requires ChainsOk(cfg, List(View(), simulate))
      requires IsLeaf(cfg, link.slot) && !Linked(List(View(), simulate), link.slot) && IsRoot(cfg, top.slot)
      ensures Valid() && View() == old(View())
      ensures Fs(simulate).Has(prev) && InTable(Fs(simulate).fe, next)
      ensures prev.slot == InsertPoint(cfg, List(View(), simulate), top.slot, link.slot)
      ensures LinkOf(next) == List(View(), simulate)[prev.slot].next
    {
      prev, next := Fs(simulate).FindPlace(link, top);
    }

    /** The counterpart of a frontend in the simulated list. */
    function SimulFe(f: Frontend?): (g: Frontend?)
      requires Fixed() && InTable(frontends.fe, f)
      ensures InTable(simulated.fe, g) && LinkOf(g) == LinkOf(f)
    {
      if f == null then null else simulated.fe[f.slot]
    }

    method AddLink(link: Frontend, top: Frontend, simulate: bool)
      requires Valid() && Fs(simulate).Has(link) && Fs(simulate).Has(top)
      requires Structure(cfg, View()) && IsFbc(cfg, link.slot) && IsFbc(cfg, top.slot)
      requires !IsRoot(cfg, link.slot) ==> IsLeaf(cfg, link.slot) && !Linked(List(View(), simulate), link.slot)
      modifies frontends.repr, simulated.repr, sec.repr
      ensures Valid()
      ensures View() == if IsRoot(cfg, link.slot) || !IsRoot(cfg, top.slot) then old(View())
                        else FbcStates.AddLink(cfg, old(View()), simulate, link.slot, top.slot)
    {
      if IsRoot(cfg, link.slot) || !IsRoot(cfg, top.slot) {
        return;
      }
      var prev, next := FindPlace(link, top, simulate);
      LinkIn(link, prev, next, simulate);
      if !simulate {
        LinkIn(SimulFe(link), SimulFe(prev), SimulFe(next), true);
      }
      UpdateLnbSlotMask(link.slot, top.slot, false);
    }

    /** disconnectLink in the list, and in the simulated list too if that is the real one. */
    method DisconnectBoth(link: Frontend, prev: Frontend, next: Frontend?, simulate: bool)
      requires Valid() && Fs(simulate).Has(link) && Fs(simulate).Has(prev) && InTable(Fs(simulate).fe, next)
      modifies frontends.repr, simulated.repr
      ensures Valid()
      ensures View() == Disconnected(old(View()), link.slot, prev.slot, LinkOf(next), simulate)
    {
      UnlinkIn(link, prev, next, simulate);
      if !simulate {
        UnlinkIn(SimulFe(link), SimulFe(prev), SimulFe(next), true);
      }
    }

    function Disconnected(s: State, link: int, prev: int, next: int, simulate: bool): (t: State)
      requires forall i :: i in [link, prev] ==> i in s.actual && i in s.sim
      requires next == NONE || (next in s.actual && next in s.sim)
    {
      var t := WithList(s, simulate,
        FbcChains.SetEnabled(Disconnect(List(s, simulate), link, prev, next), link, false));
      if simulate then t
      else t.(sim := FbcChains.SetEnabled(Disconnect(t.sim, link, prev, next), link, false))
    }

    /** What unLink does behind its guard, and the way up from prev afterwards. */
    lemma TakeOutFacts(s: State, link: int, simulate: bool) returns (climb: seq<int>)
      requires Structure(cfg, s) && IsLeaf(cfg, link) && Linked(List(s, simulate), link)
      requires !IsUsed(s, link) && !FbcStates.IsUnicable(cfg, s.lnb, link)
      ensures var p, n := List(s, simulate)[link].prev, List(s, simulate)[link].next;
              && p in s.actual && p in s.sim && (n == NONE || (n in s.actual && n in s.sim)) && link in s.actual
                && link in s.sim
              && var t := Disconnected(s, link, p, n, simulate);
              && IsClimb(List(t, simulate), climb) && climb[0] == p
              && t.(lnb := UpdateMask(t.lnb, link, climb[|climb| - 1], true)) ==
                FbcStates.Unlink(cfg, s, simulate, link)
    {
      var L := List(s, simulate);
      assert NodeOk(cfg, L, link);
      RemoveKeepsShape(cfg, L, link);
      climb := Climb(cfg, Remove(cfg, L, link), L[link].prev);
    }

    /** The part of unLink behind its guard. */
    method TakeOut(link: Frontend, simulate: bool)
      requires Valid() && Fs(simulate).Has(link)
      requires Structure(cfg, View()) && IsLeaf(cfg, link.slot) && Linked(List(View(), simulate), link.slot)
      requires !IsUsed(View(), link.slot) && !FbcStates.IsUnicable(cfg, View().lnb, link.slot)
      modifies frontends.repr, simulated.repr, sec.repr
      ensures Valid() && View() == FbcStates.Unlink(cfg, old(View()), simulate, link.slot)
    {
      ghost var climb := TakeOutFacts(View(), link.slot, simulate);
      Fs(simulate).FeAt(link);
      var prev := link.prev;
      DisconnectBoth(link, prev, link.next, simulate);
      var top := GetTop(prev, simulate, climb);
      UpdateLnbSlotMask(link.slot, top.slot, true);
    }

    method GetTop(f: Frontend, simulate: bool, ghost xs: seq<int>) returns (t: Frontend)
      requires Valid() && Fs(simulate).Has(f) && IsClimb(List(View(), simulate), xs) && xs[0] == f.slot
      ensures Valid() && View() == old(View())
      ensures Fs(simulate).Has(t) && t.slot == xs[|xs| - 1]
    {
      t := Fs(simulate).GetTop(f, xs);
    }

    method UnLink(link: Frontend)
      requires Valid() && Fs(link.simulate).Has(link)
      requires Structure(cfg, View()) && IsFbc(cfg, link.slot)
      modifies frontends.repr, simulated.repr, sec.repr
      ensures Valid() && View() == FbcStates.Unlink(cfg, old(View()), link.simulate, link.slot)
    {
      Fs(link.simulate).FeAt(link);
      var used := IsFeUsed(link);
      var unicable := IsUnicable(link);
      if IsRoot(cfg, link.slot) || used || unicable || link.prev == null {
        return;
      }
      assert NodeOk(cfg, List(View(), link.simulate), link.slot);
      TakeOut(link, link.simulate);
    }

    // -------------------------------------------------------------- allocation

    /** What either allocation loop finds for one frontend, with the loop variables checked and setId. */
    method OfferOf(it: Frontend, simulate: bool, score: Score, checked0: bool, setId0: int) returns (o: Offer)
      requires Valid() && Fs(simulate).Has(it) && it.simulate == simulate
      requires Structure(cfg, View()) && Bare(cfg, View(), simulate)
      modifies Fs(simulate).repr, sec.repr
      ensures Valid() && View() == old(View())
      ensures o == FrontendOffer(cfg, old(View()), score, simulate, checked0, setId0, it.slot)
    {
      CanLinkExactlyIfFbc(cfg, View(), simulate, it.slot);
      var can := CanLink(it);
      if IsFbc(cfg, it.slot) && can {
        var checked, setId := checked0, setId0;
        if cfg.tuner[it.slot].setId != setId {
          setId := cfg.tuner[it.slot].setId;
          checked := false;
        }
        if checked {
          return Offer(0, NONE, checked, setId);
        }
        var c, root := IsCompatibleWith(it, simulate, score);
        return Offer(c, LinkOf(root), true, setId);
      }
      return Offer(score(View(), simulate, it.slot), NONE, checked0, setId0);
    }

    /** One turn of the loop of allocateFrontend; a and b are its local variables before and after. */
    method AllocateTurn(k: nat, simulate: bool, score: Score, a: Scan) returns (b: Scan)
      requires Valid() && k < |cfg.slots|
      requires Structure(cfg, View()) && Bare(cfg, View(), simulate)
      requires a == AllocateScan(cfg, View(), score, simulate, k)
      modifies Fs(simulate).repr, sec.repr
      ensures Valid() && View() == old(View())
      ensures b == AllocateScan(cfg, old(View()), score, simulate, k + 1)
    {
      var it := At(simulate, cfg.slots[k]);
      var o := OfferOf(it, simulate, score, a.checked, a.setId);
      Fs(simulate).FeAt(it);
      b := a.(foundone := a.foundone || o.value != 0, checked := o.checked, setId := o.setId);
      if it.inuse == 0 && o.value > a.bestval {
        b := b.(bestval := o.value, best := it.slot, bestRoot := o.root);
      }
    }

    method CanAllocateTurn(k: nat, simulate: bool, score: Score, a: Offer) returns (b: Offer)
      requires Valid() && k < |cfg.slots|
      requires Structure(cfg, View()) && Bare(cfg, View(), simulate)
      requires a == CanAllocateScan(cfg, View(), score, simulate, k)
      modifies Fs(simulate).repr, sec.repr
      ensures Valid() && View() == old(View())
      ensures b == CanAllocateScan(cfg, old(View()), score, simulate, k + 1)
    {
      var it := At(simulate, cfg.slots[k]);
      Fs(simulate).FeAt(it);
      b := a;
      if it.inuse == 0 {
        var o := OfferOf(it, simulate, score, a.checked, a.setId);
        b := Offer(if o.value > a.value then o.value else a.value, NONE, o.checked, o.setId);
      }
    }

    /** The score of the best frontend that could be allocated; nothing is changed. */
    method CanAllocateFrontend(simulate: bool, score: Score) returns (v: int)
      requires Valid()
      requires Structure(cfg, View()) && Bare(cfg, View(), simulate)
      modifies Fs(simulate).repr, sec.repr
      ensures Valid() && View() == old(View())
      ensures v == CanAllocate(cfg, old(View()), score, simulate)
    {
      hide Structure, Bare, FrontendOffer;
      ghost var s := View();
      var a := Offer(0, NONE, false, NONE);
      for k := 0 to |cfg.slots|
        invariant Valid() && View() == s && a == CanAllocateScan(cfg, s, score, simulate, k)
      {
        a := CanAllocateTurn(k, simulate, score, a);
      }
      v := a.value;
    }

    /** The loop variables at the start. */
    method NothingChosen(ghost score: Score, ghost simulate: bool) returns (a: Scan)
      requires Valid() && Structure(cfg, View())
      ensures a == AllocateScan(cfg, View(), score, simulate, 0) && Valid() && View() == old(View())
    {
      a := Scan(0, NONE, NONE, false, false, NONE);
    }

    /** The loop of allocateFrontend. */
    method ChooseFrontend(simulate: bool, score: Score) returns (a: Scan)
      requires Valid()
      requires Structure(cfg, View()) && Bare(cfg, View(), simulate)
      modifies Fs(simulate).repr, sec.repr
      ensures Valid() && View() == old(View())
      ensures a == AllocateScan(cfg, old(View()), score, simulate, |cfg.slots|)
    {
      hide Structure, Bare, AllocateScan;
      ghost var s, n := View(), |cfg.slots|;
      a := NothingChosen(score, simulate);
      var k := 0;
      while k < |cfg.slots|
        invariant 0 <= k <= n && Valid() && View() == s && a == AllocateScan(cfg, s, score, simulate, k)
      {
        a := AllocateTurn(k, simulate, score, a);
        k := k + 1;
      }
    }

    method AddUse(f: Frontend, simulate: bool, d: int)
      requires Valid() && Fs(simulate).Has(f)
      modifies Fs(simulate).repr
      ensures Valid()
      ensures View() == WithList(old(View()), simulate, FbcChains.AddUse(List(old(View()), simulate), f.slot, d))
    {
      if simulate {
        ghost var L := frontends.Fes();
        simulated.AddUse(f, d);
        frontends.FesAre(L);
      } else {
        ghost var L := simulated.Fes();
        frontends.AddUse(f, d);
        simulated.FesAre(L);
      }
    }

    /** Link the chosen frontend below its root if it has one, and count the use. */
    method TakeFrontend(fe: int, root: int, simulate: bool)
      requires Valid() && Structure(cfg, View()) && CanTake(cfg, View(), simulate, fe, root)
      modifies frontends.repr, simulated.repr, sec.repr
      ensures Valid() && View() == Take(cfg, old(View()), simulate, fe, root)
    {
      if root != NONE {
        AddLink(At(simulate, fe), At(simulate, root), simulate);
      }
      AddUse(At(simulate, fe), simulate, 1);
    }

    method AllocateFrontend(simulate: bool, score: Score) returns (r: Result)
      requires Valid() && Inv(cfg, View()) && (simulate || AtRest(View()))
      modifies frontends.repr, simulated.repr, sec.repr
      ensures Valid() && Inv(cfg, View())
      ensures r == Allocate(cfg, old(View()), score, simulate)
      ensures View() == Next(cfg, old(View()), AllocateStep(simulate, score))
      ensures !r.Allocated? ==> View() == old(View())
      ensures r.Allocated? ==> r.fe in List(old(View()), simulate) && List(old(View()), simulate)[r.fe].inuse == 0
      ensures r.Allocated? ==> Counts(cfg, old(View()), View(), simulate, r.fe, 1)
    {
      hide Structure, UsesOk, Take, FbcStates.AddLink, CanTake, AllocateScan, Counts;
      ghost var s := View();
      AllocationCounts(cfg, s, simulate, score);
      InvIsBare(cfg, s, simulate);
      ChoiceIsLegal(cfg, s, score, simulate);
      NextKeepsInv(cfg, s, AllocateStep(simulate, score));
      var a := ChooseFrontend(simulate, score);
      if a.best != NONE {
        TakeFrontend(a.best, a.bestRoot, simulate);
        return Allocated(a.best, a.bestRoot);
      }
      return if a.foundone then AllSourcesBusy else NoSourceFound;
    }

    /** The end of an allocation: give the use back, and unlink an FBC tuner that no one uses any more. */
    method ReleaseFrontend(f: Frontend)
      requires Valid() && Fs(f.simulate).Has(f)
      requires Inv(cfg, View()) && f.inuse > 0 && (f.simulate || AtRest(View()))
      modifies frontends.repr, simulated.repr, sec.repr
      ensures Valid() && Inv(cfg, View())
      ensures View() == Next(cfg, old(View()), ReleaseStep(f.simulate, f.slot))
      ensures Counts(cfg, old(View()), View(), f.simulate, f.slot, -1)
    {
      hide UsesOk, FbcStates.Unlink, Structure, LeafOk, IsUsed, Counts;
      ghost var s := View();
      ReleaseCounts(cfg, s, f.simulate, f.slot);
      Fs(f.simulate).FeAt(f);
      NextKeepsInv(cfg, s, ReleaseStep(f.simulate, f.slot));
      UseKeepsStructure(cfg, s, f.simulate, f.slot, -1);
      AddUse(f, f.simulate, -1);
      if IsFbc(cfg, f.slot) {
        UnLink(f);
      }
    }
  }
}
