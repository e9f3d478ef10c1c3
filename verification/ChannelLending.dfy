/**
 canAllocateChannel asks whether a channel could be tuned if the channels that
 only FCC, the ignored service or the channel cache keep alive gave up their
 frontends. It lends out the use counts of those frontends, asks
 canAllocateFrontend, and gives every count back.
 */
module ChannelLending {
  import opened FbcChains
  import opened FbcStates
  import opened Allocator
  import opened ResourceManager
  import opened Wrappers

  class Channel {
    const id: int
    const useCount: int
    const frontend: Frontend?

    constructor (id: int, useCount: int, frontend: Frontend?)
      ensures this.id == id && this.useCount == useCount && this.frontend == frontend
    {
      this.id, this.useCount, this.frontend := id, useCount, frontend;
    }
  }

  datatype Active = Active(id: int, channel: Channel)

  /** A channel id used by FCC, and by how many FCC services. */
  datatype Fcc = Fcc(id: int, count: int)

  // ---------------------------------------------------------------- which channels are lent

  /** Each list entry is a channel of its own, and each FCC id occurs once (the ids are the keys of a map). */
  ghost predicate Distinct(active: seq<Active>, fcc: seq<Fcc>) {
    && (forall j, k :: 0 <= j < k < |active| ==> active[j].channel != active[k].channel)
    && (forall j, k :: 0 <= j < k < |fcc| ==> fcc[j].id != fcc[k].id)
  }

  /** The channel of the first entry with this id. */
  function FirstActive(active: seq<Active>, id: int): (ch: Channel?) {
    if active == [] then null
    else if active[0].id == id then active[0].channel
    else FirstActive(active[1..], id)
  }

  /** The channel has no user but n services, each of which uses it twice, and the cache if it is cached. */
  predicate OnlyUsedBy(ch: Channel, n: int, cached: Channel?) {
    ch.useCount == (if ch == cached then 1 else 0) + n * 2
  }

  /** The FCC channels among the first n ids that give up their frontend. */
  function FccLent(active: seq<Active>, fcc: seq<Fcc>, ignore: int, cached: Channel?, fe: map<int, Frontend>,
      n: nat): (lent: seq<Channel>)
    requires n <= |fcc|
  {
    if n == 0 then []
    else
      var lent := FccLent(active, fcc, ignore, cached, fe, n - 1);
      var ch := FirstActive(active, fcc[n - 1].id);
      if fcc[n - 1].id != ignore && ch != null && OnlyUsedBy(ch, fcc[n - 1].count, cached) && InList(ch, fe)
      then lent + [ch]
      else lent
  }

  /** How many FCC services use the ignored channel, as far as the first n ids tell. */
  function ForIgnored(fcc: seq<Fcc>, ignore: int, n: nat): (count: int)
    requires n <= |fcc|
  {
    if n == 0 then 0
    else if fcc[n - 1].id == ignore then fcc[n - 1].count
    else ForIgnored(fcc, ignore, n - 1)
  }

  predicate InList(ch: Channel, fe: map<int, Frontend>) {
    ch.frontend != null && InTable(fe, ch.frontend)
  }

  function IgnoredLent(active: seq<Active>, ignore: int, cached: Channel?, fe: map<int, Frontend>,
      apply: int): (lent: seq<Channel>) {
    var ch := FirstActive(active, ignore);
    if ch != null && OnlyUsedBy(ch, apply + 1, cached) && InList(ch, fe) then [ch] else []
  }

  function CachedLent(cached: Channel?, lent: seq<Channel>, fe: map<int, Frontend>): (more: seq<Channel>) {
    if cached != null && cached !in lent && cached.useCount == 1 && InList(cached, fe) then [cached] else []
  }

  /** All channels that give up their frontend, in the order they do. */
  function Lent(active: seq<Active>, fcc: seq<Fcc>, ignore: int, cached: Channel?,
      fe: map<int, Frontend>): (lent: seq<Channel>) {
    var a := FccLent(active, fcc, ignore, cached, fe, |fcc|);
    var b := a + IgnoredLent(active, ignore, cached, fe, ForIgnored(fcc, ignore, |fcc|));
    b + CachedLent(cached, b, fe)
  }

  /** Nothing but FCC services, among the first n ids, keeps this channel. */
  ghost predicate SpareOfFcc(ch: Channel, active: seq<Active>, fcc: seq<Fcc>, ignore: int, cached: Channel?, n: nat)
    requires n <= |fcc|
  {
    exists k :: 0 <= k < n && fcc[k].id != ignore && FirstActive(active, fcc[k].id) == ch
      && OnlyUsedBy(ch, fcc[k].count, cached)
  }

  /** Nothing but the ignored service, and FCC services on the same channel, keeps this channel. */
  ghost predicate SpareOfIgnored(ch: Channel, active: seq<Active>, fcc: seq<Fcc>, ignore: int, cached: Channel?) {
    FirstActive(active, ignore) == ch && OnlyUsedBy(ch, ForIgnored(fcc, ignore, |fcc|) + 1, cached)
  }

  /** Nothing but FCC, the ignored service or the cache keeps this channel. */
  ghost predicate Spare(ch: Channel, active: seq<Active>, fcc: seq<Fcc>, ignore: int, cached: Channel?) {
    || SpareOfFcc(ch, active, fcc, ignore, cached, |fcc|)
    || SpareOfIgnored(ch, active, fcc, ignore, cached)
    || (ch == cached && ch.useCount == 1)
  }

  /** It is found exactly if there is such an entry, and none before it. */
  lemma {:induction false} FirstActiveIsActive(active: seq<Active>, id: int)
    ensures var ch := FirstActive(active, id);
      if ch == null then forall k :: 0 <= k < |active| ==> active[k].id != id
      else exists k :: 0 <= k < |active| && active[k].id == id && active[k].channel == ch
             && forall j :: 0 <= j < k ==> active[j].id != id
  {
    if active != [] {
      FirstActiveIsActive(active[1..], id);
      var ch := FirstActive(active[1..], id);
      assert forall j :: 0 < j < |active| ==> active[j] == active[1..][j - 1];
      if active[0].id != id && ch != null {
        var k :| 0 <= k < |active[1..]| && active[1..][k].id == id && active[1..][k].channel == ch
          && forall j :: 0 <= j < k ==> active[1..][j].id != id;
        assert active[k + 1].channel == ch;
      }
    }
  }

  lemma DifferentIds(active: seq<Active>, fcc: seq<Fcc>, id: int, other: int)
    requires Distinct(active, fcc) && id != other
    ensures FirstActive(active, id) != null ==> FirstActive(active, id) != FirstActive(active, other)
  {
    FirstActiveIsActive(active, id);
    FirstActiveIsActive(active, other);
  }

  lemma {:induction false} FccLentMembers(active: seq<Active>, fcc: seq<Fcc>, ignore: int, cached: Channel?,
      fe: map<int, Frontend>, n: nat, ch: Channel)
    requires Distinct(active, fcc) && n <= |fcc|
    ensures ch in FccLent(active, fcc, ignore, cached, fe, n) <==>
      InList(ch, fe) && SpareOfFcc(ch, active, fcc, ignore, cached, n)
  {
    if n > 0 {
      FccLentMembers(active, fcc, ignore, cached, fe, n - 1, ch);
    }
  }

  lemma {:induction false} FccLentOnce(active: seq<Active>, fcc: seq<Fcc>, ignore: int, cached: Channel?,
      fe: map<int, Frontend>, n: nat, ch: Channel)
    requires Distinct(active, fcc) && n <= |fcc|
    ensures Times(FccLent(active, fcc, ignore, cached, fe, n), ch)
              == if InList(ch, fe) && SpareOfFcc(ch, active, fcc, ignore, cached, n) then 1 else 0
  {
    FccLentMembers(active, fcc, ignore, cached, fe, n, ch);
    if n > 0 {
      FccLentOnce(active, fcc, ignore, cached, fe, n - 1, ch);
      var lent := FccLent(active, fcc, ignore, cached, fe, n - 1);
      if FirstActive(active, fcc[n - 1].id) == ch && ch in lent {
        FccLentMembers(active, fcc, ignore, cached, fe, n - 1, ch);
        var k :| 0 <= k < n - 1 && fcc[k].id != ignore && FirstActive(active, fcc[k].id) == ch
          && OnlyUsedBy(ch, fcc[k].count, cached);
        DifferentIds(active, fcc, fcc[n - 1].id, fcc[k].id);
        assert false;
      }
    }
  }

  /** How often a channel has given up its frontend. */
  function Times(lent: seq<Channel>, ch: Channel): (n: nat)
    ensures n > 0 <==> ch in lent
  {
    if lent == [] then 0
    else Times(lent[..|lent| - 1], ch) + if lent[|lent| - 1] == ch then 1 else 0
  }

  lemma {:induction false} TimesAdd(a: seq<Channel>, b: seq<Channel>, ch: Channel)
    ensures Times(a + b, ch) == Times(a, ch) + Times(b, ch)
  {
    if b == [] {
      assert a + b == a;
    } else {
      assert (a + b)[..|a + b| - 1] == a + b[..|b| - 1];
      TimesAdd(a, b[..|b| - 1], ch);
    }
  }

  lemma NotSpareTwice(ch: Channel, active: seq<Active>, fcc: seq<Fcc>, ignore: int, cached: Channel?)
    requires Distinct(active, fcc) && SpareOfFcc(ch, active, fcc, ignore, cached, |fcc|)
    ensures !SpareOfIgnored(ch, active, fcc, ignore, cached)
  {
    var k :| 0 <= k < |fcc| && fcc[k].id != ignore && FirstActive(active, fcc[k].id) == ch
      && OnlyUsedBy(ch, fcc[k].count, cached);
    DifferentIds(active, fcc, fcc[k].id, ignore);
  }

  /** Exactly the spare channels with a frontend in the list give it up, and each gives it up once. */
  lemma LentExactlyOnce(active: seq<Active>, fcc: seq<Fcc>, ignore: int, cached: Channel?, fe: map<int, Frontend>,
      ch: Channel)
    requires Distinct(active, fcc)
    ensures Times(Lent(active, fcc, ignore, cached, fe), ch) ==
      if InList(ch, fe) && Spare(ch, active, fcc, ignore, cached) then 1 else 0
  {
    var a := FccLent(active, fcc, ignore, cached, fe, |fcc|);
    FccLentOnce(active, fcc, ignore, cached, fe, |fcc|, ch);
    var b := IgnoredLent(active, ignore, cached, fe, ForIgnored(fcc, ignore, |fcc|));
    TimesAdd(a, b, ch);
    TimesAdd(a + b, CachedLent(cached, a + b, fe), ch);
    if SpareOfFcc(ch, active, fcc, ignore, cached, |fcc|) {
      NotSpareTwice(ch, active, fcc, ignore, cached);
    }
  }

  // ---------------------------------------------------------------- who uses a channel

  /** The FCC services, of the first n ids, that run on this channel. */
  function FccServices(ch: Channel, active: seq<Active>, fcc: seq<Fcc>, n: nat): (count: int)
    requires n <= |fcc|
  {
    if n == 0 then 0
    else FccServices(ch, active, fcc, n - 1) + if FirstActive(active, fcc[n - 1].id) == ch then fcc[n - 1].count else 0
  }

  /** A service uses its channel twice, the cache once; others counts all other users. */
  ghost predicate Accounted(ch: Channel, active: seq<Active>, fcc: seq<Fcc>, ignore: int, cached: Channel?,
      others: int) {
    && others >= 0
    && ch.useCount == 2 * FccServices(ch, active, fcc, |fcc|)
         + (if FirstActive(active, ignore) == ch then 2 else 0) + (if ch == cached then 1 else 0) + others
  }

  /** There are services behind every id. */
  ghost predicate Serving(fcc: seq<Fcc>) {
    forall k :: 0 <= k < |fcc| ==> fcc[k].count > 0
  }

  lemma {:induction false} FccServicesAre(ch: Channel, active: seq<Active>, fcc: seq<Fcc>, n: nat, k: int)
    requires Distinct(active, fcc) && n <= |fcc|
    requires k == -1 || (0 <= k < |fcc| && FirstActive(active, fcc[k].id) == ch)
    requires k == -1 ==> forall j :: 0 <= j < n ==> FirstActive(active, fcc[j].id) != ch
    ensures FccServices(ch, active, fcc, n) == if 0 <= k < n then fcc[k].count else 0
  {
    if n > 0 {
      FccServicesAre(ch, active, fcc, n - 1, k);
      if k != -1 && k != n - 1 {
        DifferentIds(active, fcc, fcc[k].id, fcc[n - 1].id);
      }
    }
  }

  lemma {:induction false} ForIgnoredIs(fcc: seq<Fcc>, ignore: int, n: nat, k: int)
    requires n <= |fcc| && forall i, j :: 0 <= i < j < |fcc| ==> fcc[i].id != fcc[j].id
    requires k == -1 || (0 <= k < |fcc| && fcc[k].id == ignore)
    requires k == -1 ==> forall j :: 0 <= j < n ==> fcc[j].id != ignore
    ensures ForIgnored(fcc, ignore, n) == if 0 <= k < n then fcc[k].count else 0
  {
    if n > 0 {
      ForIgnoredIs(fcc, ignore, n - 1, k);
    }
  }

  lemma IgnoredIsSpare(ch: Channel, active: seq<Active>, fcc: seq<Fcc>, ignore: int, cached: Channel?, others: int)
    requires Distinct(active, fcc) && Serving(fcc) && Accounted(ch, active, fcc, ignore, cached, others)
    requires FirstActive(active, ignore) == ch
    ensures Spare(ch, active, fcc, ignore, cached) <==> others == 0
    ensures FccServices(ch, active, fcc, |fcc|) >= 0
  {
    forall k | 0 <= k < |fcc| && fcc[k].id != ignore ensures FirstActive(active, fcc[k].id) != ch {
      DifferentIds(active, fcc, ignore, fcc[k].id);
    }
    var k := if i :| 0 <= i < |fcc| && fcc[i].id == ignore then i else -1;
    FccServicesAre(ch, active, fcc, |fcc|, k);
    ForIgnoredIs(fcc, ignore, |fcc|, k);
  }

  lemma OthersAreSpare(ch: Channel, active: seq<Active>, fcc: seq<Fcc>, ignore: int, cached: Channel?, others: int)
    requires Distinct(active, fcc) && Serving(fcc) && Accounted(ch, active, fcc, ignore, cached, others)
    requires FirstActive(active, ignore) != ch
    ensures Spare(ch, active, fcc, ignore, cached) <==>
      others == 0 && (FccServices(ch, active, fcc, |fcc|) > 0 || ch == cached)
  {
    if k :| 0 <= k < |fcc| && FirstActive(active, fcc[k].id) == ch {
      FccServicesAre(ch, active, fcc, |fcc|, k);
      forall j | 0 <= j < |fcc| && FirstActive(active, fcc[j].id) == ch ensures j == k {
        if fcc[j].id != fcc[k].id {
          DifferentIds(active, fcc, fcc[j].id, fcc[k].id);
        }
      }
    } else {
      FccServicesAre(ch, active, fcc, |fcc|, -1);
    }
  }

  /**
   A channel gives up its frontend, once, exactly if FCC, the ignored service or the cache uses it and no one else
   does.
   */
  lemma LentIffNoOthers(active: seq<Active>, fcc: seq<Fcc>, ignore: int, cached: Channel?, fe: map<int, Frontend>,
      ch: Channel, others: int)
    requires Distinct(active, fcc) && Serving(fcc) && Accounted(ch, active, fcc, ignore, cached, others)
    ensures Times(Lent(active, fcc, ignore, cached, fe), ch) ==
      if && ch.frontend != null && ch.frontend.slot in fe && fe[ch.frontend.slot] == ch.frontend
         && others == 0
         && (FccServices(ch, active, fcc, |fcc|) > 0 || FirstActive(active, ignore) == ch || ch == cached)
      then 1 else 0
  {
    LentExactlyOnce(active, fcc, ignore, cached, fe, ch);
    if FirstActive(active, ignore) == ch {
      IgnoredIsSpare(ch, active, fcc, ignore, cached, others);
    } else {
      OthersAreSpare(ch, active, fcc, ignore, cached, others);
    }
  }

  // ---------------------------------------------------------------- lending use counts

  /** The state with the use counts of some slots lowered, as often as each slot occurs. */
  ghost function LowerBy(s: State, simulate: bool, slots: multiset<int>): (t: State) {
    WithList(s, simulate, map i | i in List(s, simulate) ::
      List(s, simulate)[i].(inuse := List(s, simulate)[i].inuse - slots[i]))
  }

  lemma LowerByNothing(s: State, simulate: bool)
    ensures LowerBy(s, simulate, multiset{}) == s
  {
    var L, M := List(s, simulate), List(LowerBy(s, simulate, multiset{}), simulate);
    assert forall i :: i in L ==> M[i] == L[i];
    assert M == L;
  }

  lemma LowerStep(s: State, simulate: bool, slots: multiset<int>, i: int)
    requires i in List(s, simulate)
    ensures var t, u := LowerBy(s, simulate, slots), LowerBy(s, simulate, slots + multiset{i});
            && i in List(t, simulate) && i in List(u, simulate)
            && u == WithList(t, simulate, AddUse(List(t, simulate), i, -1))
            && t == WithList(u, simulate, AddUse(List(u, simulate), i, 1))
  {
    var t, u := LowerBy(s, simulate, slots), LowerBy(s, simulate, slots + multiset{i});
    var T, U := List(t, simulate), List(u, simulate);
    assert forall j :: j in T ==> U[j] == AddUse(T, i, -1)[j] && T[j] == AddUse(U, i, 1)[j];
    assert U == AddUse(T, i, -1);
    assert T == AddUse(U, i, 1);
  }

  lemma LoweredIsReady(c: Config, s: State, simulate: bool, slots: multiset<int>)
    requires Structure(c, s) && Bare(c, s, simulate)
    ensures Structure(c, LowerBy(s, simulate, slots)) && Bare(c, LowerBy(s, simulate, slots), simulate)
  {
    var t := LowerBy(s, simulate, slots);
    SameButUses(c, s, t);
    forall i | IsLeaf(c, i) && !Linked(List(t, simulate), i)
      ensures NoBits(t.lnb, i)
    {
      assert !Linked(List(s, simulate), i);
    }
  }

  /** The slots of the frontends that some channels give up. */
  function SlotsOf(lent: seq<Channel>): (m: multiset<int>) {
    if lent == [] then multiset{} else SlotsOf(lent[..|lent| - 1]) + multiset{LinkOf(lent[|lent| - 1].frontend)}
  }

  lemma SlotsOfMore(chs: seq<Channel>, ch: Channel)
    ensures SlotsOf(chs + [ch]) == SlotsOf(chs) + multiset{LinkOf(ch.frontend)}
    ensures SlotsOf([ch]) == multiset{LinkOf(ch.frontend)}
  {
    assert (chs + [ch])[..|chs + [ch]| - 1] == chs;
    assert SlotsOf([ch]) == SlotsOf([]) + multiset{LinkOf(ch.frontend)};
  }

  lemma {:induction false} SlotsOfAdd(a: seq<Channel>, b: seq<Channel>)
    ensures SlotsOf(a + b) == SlotsOf(a) + SlotsOf(b)
  {
    if b == [] {
      assert a + b == a;
    } else {
      assert (a + b)[..|a + b| - 1] == a + b[..|b| - 1];
      SlotsOfAdd(a, b[..|b| - 1]);
    }
  }

  /**
   What canAllocateChannel answers: a default if the channel is there already, else the best score with the spare
   frontends lent out.
   */
  ghost function Answer(c: Config, s: State, fe: map<int, Frontend>, id: int, ignore: int, simulate: bool,
      active: seq<Active>, cached: Channel?, fcc: seq<Fcc>, parm: Option<Score>, default: int): (ret: int)
    requires Structure(c, s) && Bare(c, s, simulate)
  {
    if (!simulate && cached != null && id == cached.id) || FirstActive(active, id) != null then default
    else if parm == None then 0
    else
      var slots := SlotsOf(Lent(active, fcc, ignore, cached, fe));
      LoweredIsReady(c, s, simulate, slots);
      CanAllocate(c, LowerBy(s, simulate, slots), parm.value, simulate)
  }

  /** It is the default exactly for a channel that is cached, unless this is a simulation, or active. */
  lemma AnswerIsEarly(c: Config, s: State, fe: map<int, Frontend>, id: int, ignore: int, simulate: bool,
      active: seq<Active>, cached: Channel?, fcc: seq<Fcc>, parm: Option<Score>, default: int)
    requires Structure(c, s) && Bare(c, s, simulate)
    requires (!simulate && cached != null && cached.id == id) || exists k :: 0 <= k < |active| && active[k].id == id
    ensures Answer(c, s, fe, id, ignore, simulate, active, cached, fcc, parm, default) == default
  {
    FirstActiveIsActive(active, id);
  }

  /** ch gives up the frontend in slot i: FCC, the ignored service or the cache uses it, and no one else. */
  ghost predicate Gives(ch: Channel, active: seq<Active>, fcc: seq<Fcc>, ignore: int, cached: Channel?,
      fe: map<int, Frontend>, others: Channel -> int, i: int) {
    && ch.frontend != null && ch.frontend.slot == i && i in fe && fe[i] == ch.frontend
    && others(ch) == 0
    && (FccServices(ch, active, fcc, |fcc|) > 0 || FirstActive(active, ignore) == ch || ch == cached)
  }

  ghost predicate IsActive(ch: Channel?, active: seq<Active>, n: nat)
    requires n <= |active|
  {
    exists k :: 0 <= k < n && active[k].channel == ch
  }

  /** How many of the first n active channels give up the frontend in slot i. */
  ghost function Givers(active: seq<Active>, fcc: seq<Fcc>, ignore: int, cached: Channel?, fe: map<int, Frontend>,
      others: Channel -> int, i: int, n: nat): (count: nat)
    requires n <= |active|
  {
    if n == 0 then 0
    else
      Givers(active, fcc, ignore, cached, fe, others, i, n - 1)
      + if Gives(active[n - 1].channel, active, fcc, ignore, cached, fe, others, i) then 1 else 0
  }

  /** How many channels do, the cached one among them. */
  ghost function AllGivers(active: seq<Active>, fcc: seq<Fcc>, ignore: int, cached: Channel?, fe: map<int, Frontend>,
      others: Channel -> int, i: int): (count: nat)
  {
    Givers(active, fcc, ignore, cached, fe, others, i, |active|)
    + if cached != null && !IsActive(cached, active, |active|)
      && Gives(cached, active, fcc, ignore, cached, fe, others, i)
      then 1 else 0
  }

  /** How often a frontend in slot i is given up by the first n active channels. */
  ghost function TimesOf(lent: seq<Channel>, active: seq<Active>, i: int, n: nat): (count: nat)
    requires n <= |active|
  {
    if n == 0 then 0
    else
      TimesOf(lent, active, i, n - 1)
      + if LinkOf(active[n - 1].channel.frontend) == i then Times(lent, active[n - 1].channel) else 0
  }

  lemma {:induction false} TimesOfMore(lent: seq<Channel>, active: seq<Active>, i: int, n: nat)
    requires n <= |active| && lent != []
    requires forall j, k :: 0 <= j < k < |active| ==> active[j].channel != active[k].channel
    ensures var last := lent[|lent| - 1];
      TimesOf(lent, active, i, n) == TimesOf(lent[..|lent| - 1], active, i, n)
        + if LinkOf(last.frontend) == i && IsActive(last, active, n) then 1 else 0
    decreases n
  {
    if n > 0 {
      TimesOfMore(lent, active, i, n - 1);
      var last := lent[|lent| - 1];
      assert IsActive(last, active, n) <==> IsActive(last, active, n - 1) || active[n - 1].channel == last;
    }
  }

  /** Each time is counted with the active channel it belongs to, or with the cached one. */
  lemma {:induction false} SlotsAreTimes(lent: seq<Channel>, active: seq<Active>, cached: Channel?, i: int)
    requires forall j, k :: 0 <= j < k < |active| ==> active[j].channel != active[k].channel
    requires forall k :: 0 <= k < |lent| ==> lent[k] == cached || IsActive(lent[k], active, |active|)
    ensures SlotsOf(lent)[i] == TimesOf(lent, active, i, |active|)
      + if cached != null && !IsActive(cached, active, |active|) && LinkOf(cached.frontend) == i
        then Times(lent, cached) else 0
    decreases |lent|
  {
    if lent == [] {
      NoTimes(active, i, |active|);
    } else {
      SlotsAreTimes(lent[..|lent| - 1], active, cached, i);
      TimesOfMore(lent, active, i, |active|);
    }
  }

  lemma {:induction false} NoTimes(active: seq<Active>, i: int, n: nat)
    requires n <= |active|
    ensures TimesOf([], active, i, n) == 0
  {
    if n > 0 {
      NoTimes(active, i, n - 1);
    }
  }

  /** Every user of the active channels and of the cached one is known. */
  ghost predicate AllAccounted(active: seq<Active>, fcc: seq<Fcc>, ignore: int, cached: Channel?,
      others: Channel -> int) {
    && Distinct(active, fcc) && Serving(fcc)
    && (forall k :: 0 <= k < |active| ==>
          Accounted(active[k].channel, active, fcc, ignore, cached, others(active[k].channel)))
    && (cached != null ==> Accounted(cached, active, fcc, ignore, cached, others(cached)))
  }

  lemma {:induction false} TimesAreGivers(active: seq<Active>, fcc: seq<Fcc>, ignore: int, cached: Channel?,
      fe: map<int, Frontend>, others: Channel -> int, i: int, n: nat)
    requires AllAccounted(active, fcc, ignore, cached, others) && n <= |active| && i != NONE
    ensures TimesOf(Lent(active, fcc, ignore, cached, fe), active, i, n) ==
      Givers(active, fcc, ignore, cached, fe, others, i, n)
    decreases n
  {
    if n > 0 {
      hide Lent, Accounted;
      var ch := active[n - 1].channel;
      TimesAreGivers(active, fcc, ignore, cached, fe, others, i, n - 1);
      LentIffNoOthers(active, fcc, ignore, cached, fe, ch, others(ch));
    }
  }

  lemma {:induction false} FccLentIsActive(active: seq<Active>, fcc: seq<Fcc>, ignore: int, cached: Channel?,
      fe: map<int, Frontend>, n: nat, k: nat)
    requires n <= |fcc| && k < |FccLent(active, fcc, ignore, cached, fe, n)|
    ensures IsActive(FccLent(active, fcc, ignore, cached, fe, n)[k], active, |active|)
  {
    if k < |FccLent(active, fcc, ignore, cached, fe, n - 1)| {
      FccLentIsActive(active, fcc, ignore, cached, fe, n - 1, k);
    } else {
      FirstIsActive(active, fcc[n - 1].id);
    }
  }

  lemma FirstIsActive(active: seq<Active>, id: int)
    ensures FirstActive(active, id) != null ==> IsActive(FirstActive(active, id), active, |active|)
  {
    FirstActiveIsActive(active, id);
  }

  lemma LentAreChannels(active: seq<Active>, fcc: seq<Fcc>, ignore: int, cached: Channel?, fe: map<int, Frontend>)
    ensures var lent := Lent(active, fcc, ignore, cached, fe);
      forall k :: 0 <= k < |lent| ==> lent[k] == cached || IsActive(lent[k], active, |active|)
  {
    FirstIsActive(active, ignore);
    var front, lent := FccLent(active, fcc, ignore, cached, fe, |fcc|), Lent(active, fcc, ignore, cached, fe);
    forall k | 0 <= k < |lent| ensures lent[k] == cached || IsActive(lent[k], active, |active|) {
      if k < |front| {
        FccLentIsActive(active, fcc, ignore, cached, fe, |fcc|, k);
      }
    }
  }

  /** What is given up in slot i is what the channels without other users give up there. */
  lemma LentAreGivers(active: seq<Active>, fcc: seq<Fcc>, ignore: int, cached: Channel?, fe: map<int, Frontend>,
      others: Channel -> int, i: int)
    requires AllAccounted(active, fcc, ignore, cached, others) && i != NONE
    ensures SlotsOf(Lent(active, fcc, ignore, cached, fe))[i] == AllGivers(active, fcc, ignore, cached, fe, others, i)
  {
    hide Accounted, FccLent, SlotsOf, Times;
    LentAreChannels(active, fcc, ignore, cached, fe);
    SlotsAreTimes(Lent(active, fcc, ignore, cached, fe), active, cached, i);
    TimesAreGivers(active, fcc, ignore, cached, fe, others, i, |active|);
    if cached != null {
      LentIffNoOthers(active, fcc, ignore, cached, fe, cached, others(cached));
    }
  }

  /** t is s with as many uses of each frontend less as channels give it up. */
  ghost predicate IsFreed(s: State, t: State, simulate: bool, active: seq<Active>, fcc: seq<Fcc>, ignore: int,
      cached: Channel?, fe: map<int, Frontend>, others: Channel -> int) {
    var L, M := List(s, simulate), List(t, simulate);
    && List(t, !simulate) == List(s, !simulate) && t.lnb == s.lnb
    && (forall i :: i in M <==> i in L)
    && forall i :: i in L ==>
         M[i] == L[i].(inuse := L[i].inuse - AllGivers(active, fcc, ignore, cached, fe, others, i))
  }

  /**
   Otherwise it is what canAllocateFrontend says of the state in which exactly the channels without other users have
   given up their frontends, and 0 for a channel that is not known.
   */
  lemma AnswerFrees(c: Config, s: State, fe: map<int, Frontend>, id: int, ignore: int, simulate: bool,
      active: seq<Active>, cached: Channel?, fcc: seq<Fcc>, parm: Option<Score>, default: int, others: Channel -> int)
    requires Structure(c, s) && Bare(c, s, simulate)
    requires AllAccounted(active, fcc, ignore, cached, others)
    requires !(!simulate && cached != null && cached.id == id) && forall k :: 0 <= k < |active| ==> active[k].id != id
    ensures parm.None? ==> Answer(c, s, fe, id, ignore, simulate, active, cached, fcc, parm, default) == 0
    ensures parm.Some? ==>
      exists t ::
        && Structure(c, t) && IsFreed(s, t, simulate, active, fcc, ignore, cached, fe, others)
        && Answer(c, s, fe, id, ignore, simulate, active, cached, fcc, parm, default) ==
             CanAllocate(c, t, parm.value, simulate)
  {
    FirstActiveIsActive(active, id);
    if parm.Some? {
      var slots := SlotsOf(Lent(active, fcc, ignore, cached, fe));
      LoweredIsReady(c, s, simulate, slots);
      var t := LowerBy(s, simulate, slots);
      forall i | i in List(s, simulate)
        ensures List(t, simulate)[i].inuse ==
          List(s, simulate)[i].inuse - AllGivers(active, fcc, ignore, cached, fe, others, i)
      {
        LentAreGivers(active, fcc, ignore, cached, fe, others, i);
      }
      assert IsFreed(s, t, simulate, active, fcc, ignore, cached, fe, others);
    }
  }

  /**
   Lower the use count of the channel's frontend if the channel has no other users and its frontend is in the list.
   */
  method Lend(mgr: Manager, simulate: bool, ch: Channel, n: int, cached: Channel?, ghost s: State,
      ghost slots: multiset<int>) returns (f: Frontend?)
    requires mgr.Valid() && mgr.View() == LowerBy(s, simulate, slots)
    modifies mgr.Fs(simulate).repr
    ensures mgr.Valid()
    ensures if OnlyUsedBy(ch, n, cached) && InList(ch, mgr.Fs(simulate).fe)
            then f != null && mgr.Fs(simulate).Has(f) && f == ch.frontend
              && mgr.View() == LowerBy(s, simulate, slots + multiset{f.slot})
            else f == null && mgr.View() == LowerBy(s, simulate, slots)
  {
    f := null;
    if OnlyUsedBy(ch, n, cached) {
      f := LendFrontend(mgr, simulate, ch, s, slots);
    }
  }

  method LendFrontend(mgr: Manager, simulate: bool, ch: Channel, ghost s: State, ghost slots: multiset<int>)
      returns (f: Frontend?)
    requires mgr.Valid() && mgr.View() == LowerBy(s, simulate, slots)
    modifies mgr.Fs(simulate).repr
    ensures mgr.Valid()
    ensures if InList(ch, mgr.Fs(simulate).fe)
            then f != null && mgr.Fs(simulate).Has(f) && f == ch.frontend
              && mgr.View() == LowerBy(s, simulate, slots + multiset{f.slot})
            else f == null && mgr.View() == LowerBy(s, simulate, slots)
  {
    f := null;
    if InList(ch, mgr.Fs(simulate).fe) {
      f := ch.frontend;
      mgr.Fs(simulate).FeAt(f);
      LowerStep(s, simulate, slots, f.slot);
      mgr.AddUse(f, simulate, -1);
    }
  }

  /** Give one lent use count back. */
  method GiveBack(mgr: Manager, simulate: bool, f: Frontend, ghost s: State, ghost slots: multiset<int>)
    requires mgr.Valid() && mgr.Fs(simulate).Has(f) && mgr.View() == LowerBy(s, simulate, slots + multiset{f.slot})
    modifies mgr.Fs(simulate).repr
    ensures mgr.Valid() && mgr.View() == LowerBy(s, simulate, slots)
  {
    mgr.Fs(simulate).FeAt(f);
    LowerStep(s, simulate, slots, f.slot);
    mgr.AddUse(f, simulate, 1);
  }

  /** The slots of frontends whose counts are to be given back. */
  ghost function Owed(fs: seq<Frontend>): (m: multiset<int>) {
    if fs == [] then multiset{} else Owed(fs[1..]) + multiset{fs[0].slot}
  }

  lemma {:induction false} OwedMore(fs: seq<Frontend>, f: Frontend)
    ensures Owed(fs + [f]) == Owed(fs) + multiset{f.slot}
  {
    if fs != [] {
      assert (fs + [f])[1..] == fs[1..] + [f];
      OwedMore(fs[1..], f);
    }
  }

  method GiveAllBack(mgr: Manager, simulate: bool, fs: seq<Frontend>, ghost s: State)
    requires mgr.Valid() && mgr.View() == LowerBy(s, simulate, Owed(fs))
    requires forall f :: f in fs ==> mgr.Fs(simulate).Has(f)
    modifies mgr.Fs(simulate).repr
    ensures mgr.Valid() && mgr.View() == s
  {
    for k := 0 to |fs|
      invariant mgr.Valid() && mgr.View() == LowerBy(s, simulate, Owed(fs[k..]))
    {
      assert fs[k..][1..] == fs[k + 1..];
      GiveBack(mgr, simulate, fs[k], s, Owed(fs[k + 1..]));
    }
    LowerByNothing(s, simulate);
  }

  /** One turn of the FCC loop; lent holds the counts to give back, chs the channels they came from. */
  method FccTurn(mgr: Manager, simulate: bool, ch: Channel, count: int, cached: Channel?, lent0: seq<Frontend>,
      ghost s: State, ghost chs: seq<Channel>)
      returns (lent: seq<Frontend>, took: bool)
    requires mgr.Valid() && mgr.View() == LowerBy(s, simulate, Owed(lent0)) && Owed(lent0) == SlotsOf(chs)
    requires forall f :: f in lent0 ==> mgr.Fs(simulate).Has(f)
    modifies mgr.Fs(simulate).repr
    ensures mgr.Valid() && mgr.View() == LowerBy(s, simulate, Owed(lent))
    ensures took <==> OnlyUsedBy(ch, count, cached) && InList(ch, mgr.Fs(simulate).fe)
    ensures Owed(lent) == SlotsOf(if took then chs + [ch] else chs)
    ensures forall f :: f in lent ==> mgr.Fs(simulate).Has(f)
  {
    var f := Lend(mgr, simulate, ch, count, cached, s, Owed(lent0));
    lent, took := lent0, f != null;
    if f != null {
      var lender: Frontend := f;
      OwedMore(lent, lender);
      lent := lent + [lender];
      SlotsOfMore(chs, ch);
    }
  }

  /** The FCC loop: lend the frontends of channels that only FCC keeps. */
  method LendFcc(mgr: Manager, simulate: bool, active: seq<Active>, fcc: seq<Fcc>, ignore: int, cached: Channel?,
      ghost s: State, ghost fe: map<int, Frontend>)
      returns (lent: seq<Frontend>, apply: int, cachedLent: bool)
    requires mgr.Valid() && mgr.View() == s && fe == mgr.Fs(simulate).fe
    modifies mgr.Fs(simulate).repr
    ensures mgr.Valid()
    ensures var chs := FccLent(active, fcc, ignore, cached, fe, |fcc|);
            && Owed(lent) == SlotsOf(chs) && mgr.View() == LowerBy(s, simulate, Owed(lent))
            && (cachedLent <==> cached != null && cached in chs)
    ensures forall f :: f in lent ==> mgr.Fs(simulate).Has(f)
    ensures apply == ForIgnored(fcc, ignore, |fcc|)
  {
    lent, apply, cachedLent := [], 0, false;
    LowerByNothing(s, simulate);
    for k := 0 to |fcc|
      invariant mgr.Valid() && mgr.View() == LowerBy(s, simulate, Owed(lent))
      invariant Owed(lent) == SlotsOf(FccLent(active, fcc, ignore, cached, fe, k))
      invariant cachedLent <==> cached != null && cached in FccLent(active, fcc, ignore, cached, fe, k)
      invariant forall f :: f in lent ==> mgr.Fs(simulate).Has(f)
      invariant apply == ForIgnored(fcc, ignore, k)
    {
      var ch := FirstActive(active, fcc[k].id);
      if fcc[k].id == ignore {
        apply := fcc[k].count;
      } else if ch != null {
        var took;
        lent, took := FccTurn(mgr, simulate, ch, fcc[k].count, cached, lent, s,
          FccLent(active, fcc, ignore, cached, fe, k));
        cachedLent := cachedLent || (took && ch == cached);
      }
    }
  }

  function One(f: Frontend?): (m: multiset<int>) {
    if f == null then multiset{} else multiset{f.slot}
  }

  /** Lend the frontend of the ignored channel if nothing else keeps it. */
  method LendIgnored(mgr: Manager, simulate: bool, active: seq<Active>, ignore: int, apply: int, cached: Channel?,
      ghost s: State, ghost slots: multiset<int>, ghost fe: map<int, Frontend>)
      returns (f: Frontend?, cachedLent: bool)
    requires mgr.Valid() && mgr.View() == LowerBy(s, simulate, slots) && fe == mgr.Fs(simulate).fe
    modifies mgr.Fs(simulate).repr
    ensures mgr.Valid() && mgr.View() == LowerBy(s, simulate, slots + One(f))
    ensures f != null ==> mgr.Fs(simulate).Has(f)
    ensures SlotsOf(IgnoredLent(active, ignore, cached, fe, apply)) == One(f)
    ensures cachedLent <==>
      IgnoredLent(active, ignore, cached, fe, apply) != [] && FirstActive(active, ignore) == cached
  {
    hide LowerBy, OnlyUsedBy, FirstActive;
    f, cachedLent := null, false;
    assert slots + multiset{} == slots;
    var ch := FirstActive(active, ignore);
    if ch != null {
      f := Lend(mgr, simulate, ch, apply + 1, cached, s, slots);
      cachedLent := f != null && ch == cached;
      SlotsOfMore([], ch);
    }
  }

  /** Lend the frontend of the cached channel if only the cache keeps it and it has not been lent yet. */
  method LendCached(mgr: Manager, simulate: bool, cached: Channel?, ghost chs: seq<Channel>, already: bool,
                    ghost s: State, ghost slots: multiset<int>, ghost fe: map<int, Frontend>) returns (f: Frontend?)
    requires mgr.Valid() && mgr.View() == LowerBy(s, simulate, slots) && fe == mgr.Fs(simulate).fe
    requires already <==> cached != null && cached in chs
    modifies mgr.Fs(simulate).repr
    ensures mgr.Valid() && mgr.View() == LowerBy(s, simulate, slots + One(f))
    ensures f != null ==> mgr.Fs(simulate).Has(f)
    ensures SlotsOf(CachedLent(cached, chs, fe)) == One(f)
  {
    f := null;
    assert slots + multiset{} == slots;
    if !already && cached != null && cached.useCount == 1 {
      f := LendFrontend(mgr, simulate, cached, s, slots);
      SlotsOfMore([], cached);
    }
  }

  /** All the lending: the FCC loop, the ignored channel, the cached channel. */
  method LendAll(mgr: Manager, ignore: int, simulate: bool, active: seq<Active>, cached: Channel?, fcc: seq<Fcc>,
      ghost s: State, ghost fe: map<int, Frontend>)
      returns (lent: seq<Frontend>, ignored: Frontend?, cachedFe: Frontend?)
    requires mgr.Valid() && mgr.View() == s && fe == mgr.Fs(simulate).fe
    modifies mgr.Fs(simulate).repr
    ensures mgr.Valid()
    ensures mgr.View() == LowerBy(s, simulate, SlotsOf(Lent(active, fcc, ignore, cached, fe)))
    ensures SlotsOf(Lent(active, fcc, ignore, cached, fe)) == Owed(lent) + One(ignored) + One(cachedFe)
    ensures forall f :: f in lent ==> mgr.Fs(simulate).Has(f)
    ensures (ignored != null ==> mgr.Fs(simulate).Has(ignored)) && (cachedFe != null ==> mgr.Fs(simulate).Has(cachedFe))
  {
    var apply, inFcc, inIgnored;
    lent, apply, inFcc := LendFcc(mgr, simulate, active, fcc, ignore, cached, s, fe);
    ignored, inIgnored := LendIgnored(mgr, simulate, active, ignore, apply, cached, s, Owed(lent), fe);
    ghost var a := FccLent(active, fcc, ignore, cached, fe, |fcc|);
    ghost var b := IgnoredLent(active, ignore, cached, fe, apply);
    SlotsOfAdd(a, b);
    assert inIgnored <==> cached != null && cached in b;
    cachedFe := LendCached(mgr, simulate, cached, a + b, inFcc || inIgnored, s, Owed(lent) + One(ignored), fe);
    SlotsOfAdd(a + b, CachedLent(cached, a + b, fe));
  }

  method GiveBackOne(mgr: Manager, simulate: bool, f: Frontend?, ghost s: State, ghost slots: multiset<int>)
    requires mgr.Valid() && (f != null ==> mgr.Fs(simulate).Has(f))
      && mgr.View() == LowerBy(s, simulate, slots + One(f))
    modifies mgr.Fs(simulate).repr
    ensures mgr.Valid() && mgr.View() == LowerBy(s, simulate, slots)
  {
    if f != null {
      GiveBack(mgr, simulate, f, s, slots);
    } else {
      assert slots + multiset{} == slots;
    }
  }

  /** Everything that was lent is given back. */
  method Repay(mgr: Manager, simulate: bool, lent: seq<Frontend>, ignored: Frontend?, cachedFe: Frontend?,
      ghost s: State)
    requires mgr.Valid() && mgr.View() == LowerBy(s, simulate, Owed(lent) + One(ignored) + One(cachedFe))
    requires forall f :: f in lent ==> mgr.Fs(simulate).Has(f)
    requires (ignored != null ==> mgr.Fs(simulate).Has(ignored))
      && (cachedFe != null ==> mgr.Fs(simulate).Has(cachedFe))
    modifies mgr.Fs(simulate).repr
    ensures mgr.Valid() && mgr.View() == s
  {
    assert Owed(lent) + One(ignored) + One(cachedFe) == Owed(lent) + One(cachedFe) + One(ignored);
    GiveBackOne(mgr, simulate, ignored, s, Owed(lent) + One(cachedFe));
    GiveBackOne(mgr, simulate, cachedFe, s, Owed(lent));
    GiveAllBack(mgr, simulate, lent, s);
  }

  /**
   Could this channel be tuned? Every use count is what it was afterwards, on every way out, whatever the
   overlap of cached, ignored and FCC channels.
   */
  method CanAllocateChannel(mgr: Manager, id: int, ignore: int, simulate: bool, active: seq<Active>, cached: Channel?,
      fcc: seq<Fcc>, parm: Option<Score>, default: int) returns (ret: int)
    requires mgr.Valid() && Structure(mgr.cfg, mgr.View()) && Bare(mgr.cfg, mgr.View(), simulate)
    modifies mgr.Fs(simulate).repr, mgr.sec.repr
    ensures mgr.Valid() && mgr.View() == old(mgr.View())
    ensures ret == Answer(mgr.cfg, old(mgr.View()), mgr.Fs(simulate).fe, id, ignore, simulate, active, cached, fcc,
      parm, default)
  {
    if !simulate && cached != null && id == cached.id {
      return default;
    }
    if FirstActive(active, id) != null {
      return default;
    }
    ret := AskWithSpares(mgr, ignore, simulate, active, cached, fcc, parm, mgr.View(), mgr.Fs(simulate).fe);
  }

  /** The part of canAllocateChannel that lends. */
  method AskWithSpares(mgr: Manager, ignore: int, simulate: bool, active: seq<Active>, cached: Channel?, fcc: seq<Fcc>,
                       parm: Option<Score>, ghost s: State, ghost fe: map<int, Frontend>) returns (ret: int)
    requires mgr.Valid() && mgr.View() == s && fe == mgr.Fs(simulate).fe
    requires Structure(mgr.cfg, s) && Bare(mgr.cfg, s, simulate)
    modifies mgr.Fs(simulate).repr, mgr.sec.repr
    ensures mgr.Valid() && mgr.View() == s
    ensures var slots := SlotsOf(Lent(active, fcc, ignore, cached, fe));
            && Structure(mgr.cfg, LowerBy(s, simulate, slots))
            && ret == if parm == None then 0
              else CanAllocate(mgr.cfg, LowerBy(s, simulate, slots), parm.value, simulate)
  {
    ghost var slots := SlotsOf(Lent(active, fcc, ignore, cached, fe));
    LoweredIsReady(mgr.cfg, s, simulate, slots);
    var lent, ignored, cachedFe := LendAll(mgr, ignore, simulate, active, cached, fcc, s, fe);
    ret := 0;
    if parm != None {
      ret := mgr.CanAllocateFrontend(simulate, parm.value);
    }
    Repay(mgr, simulate, lent, ignored, cachedFe, s);
  }
}
