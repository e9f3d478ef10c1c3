/**
 The timer scheduler: a sorted list of pending entries, a list of finished ones,
 and a work loop that re-enters itself through entries that repeat.
 */
module Timers {
  import opened Calendar
  import opened TimerEntries
  import opened Wrappers

  const MAX_WAIT_TIME := 100

  // ---------------------------------------------------------------- lists of entries

  /** All entries are in all, and no key is smaller than t. */
  ghost predicate NotBefore(t: int, l: seq<TimerEntry>, all: set<TimerEntry>)
    reads all
  {
    l != [] ==> l[0] in all && t <= l[0].Key() && NotBefore(t, l[1..], all)
  }

  /** Every entry of all is in exactly one list, once; tl is sorted and unfinished, pl finished. */
  ghost predicate ListsOk(tl: seq<TimerEntry>, pl: seq<TimerEntry>, all: set<TimerEntry>)
    reads all
    decreases |tl|, |pl|
  {
    if tl != [] then
      && tl[0] in all && tl[0].Ok() && tl[0].state < ENDED
      && NotBefore(tl[0].Key(), tl[1..], all) && ListsOk(tl[1..], pl, all - {tl[0]})
    else if pl != [] then
      pl[0] in all && pl[0].Ok() && pl[0].state == ENDED && ListsOk(tl, pl[1..], all - {pl[0]})
    else
      all == {}
  }

  lemma {:induction false} NotBeforeMeans(t: int, l: seq<TimerEntry>, all: set<TimerEntry>)
    ensures NotBefore(t, l, all) <==> forall i :: 0 <= i < |l| ==> l[i] in all && t <= l[i].Key()
    decreases |l|
  {
    if l != [] {
      NotBeforeMeans(t, l[1..], all);
      assert forall i :: 0 < i < |l| ==> l[i] == l[1..][i - 1];
    }
  }

  lemma {:induction false} NotBeforeLess(t: int, u: int, l: seq<TimerEntry>, all: set<TimerEntry>,
      more: set<TimerEntry>)
    requires NotBefore(t, l, all) && u <= t && all <= more
    ensures NotBefore(u, l, more)
    decreases |l|
  {
    if l != [] {
      NotBeforeLess(t, u, l[1..], all, more);
    }
  }

  /** The entries are those in the lists, and where an entry is follows from its state. */
  lemma {:induction false} Place(tl: seq<TimerEntry>, pl: seq<TimerEntry>, all: set<TimerEntry>, e: TimerEntry)
    requires ListsOk(tl, pl, all)
    ensures e in all <==> e in tl || e in pl
    ensures e in all ==> e.Ok() && (e in tl <==> e.state < ENDED) && (e in pl <==> e.state == ENDED)
    decreases |tl|, |pl|
  {
    if tl != [] {
      Place(tl[1..], pl, all - {tl[0]}, e);
      Place(tl[1..], pl, all - {tl[0]}, tl[0]);
    } else if pl != [] {
      Place(tl, pl[1..], all - {pl[0]}, e);
    }
  }

  /** No entry is twice in a list. */
  lemma {:induction false} Once(tl: seq<TimerEntry>, pl: seq<TimerEntry>, all: set<TimerEntry>)
    requires ListsOk(tl, pl, all)
    ensures |tl| + |pl| == |all|
    decreases |tl|, |pl|
  {
    if tl != [] {
      Once(tl[1..], pl, all - {tl[0]});
    } else if pl != [] {
      Once(tl, pl[1..], all - {pl[0]});
    }
  }

  // ---------------------------------------------------------------- inserting

  /** e put into l at position p. */
  function Inserted(l: seq<TimerEntry>, p: nat, e: TimerEntry): (r: seq<TimerEntry>)
    requires p <= |l|
  {
    l[..p] + [e] + l[p..]
  }

  lemma InsertedTail(l: seq<TimerEntry>, p: nat, e: TimerEntry)
    requires p <= |l|
    ensures var r := Inserted(l, p, e);
      r != [] && if p == 0 then r[0] == e && r[1..] == l else r[0] == l[0] && r[1..] == Inserted(l[1..], p - 1, e)
  {
    var r := Inserted(l, p, e);
    if p == 0 {
      assert r[1..] == l;
    } else {
      assert r[1..] == Inserted(l[1..], p - 1, e);
    }
  }

  lemma {:induction false} NotBeforeInserted(t: int, l: seq<TimerEntry>, p: nat, e: TimerEntry, all: set<TimerEntry>)
    requires p <= |l| && NotBefore(t, l, all) && t <= e.Key()
    ensures NotBefore(t, Inserted(l, p, e), all + {e})
    decreases |l|
  {
    InsertedTail(l, p, e);
    if p == 0 {
      NotBeforeLess(t, t, l, all, all + {e});
    } else {
      NotBeforeInserted(t, l[1..], p - 1, e, all);
    }
  }

  /** The keys of the list do not fall. */
  ghost predicate Sorted(l: seq<TimerEntry>)
    reads l
  {
    forall i, j :: 0 <= i < j < |l| ==> l[i].Key() <= l[j].Key()
  }

  /** The place of a key in a sorted list: behind all keys that are not larger. */
  function Slot(l: seq<TimerEntry>, key: int): (p: nat)
    reads l
    ensures p <= |l|
  {
    if l == [] || key < l[0].Key() then 0 else 1 + Slot(l[1..], key)
  }

  lemma {:induction false} SlotIs(l: seq<TimerEntry>, key: int, p: nat)
    requires p <= |l|
    requires (forall i :: 0 <= i < p ==> l[i].Key() <= key) && (p < |l| ==> key < l[p].Key())
    ensures Slot(l, key) == p
    decreases |l|
  {
    if p > 0 {
      SlotIs(l[1..], key, p - 1);
    }
  }

  /** bisect.insort: in a sorted list, halving finds the place behind all keys that are not larger. */
  method Insort(l: seq<TimerEntry>, e: TimerEntry) returns (r: seq<TimerEntry>, ghost p: nat)
    ensures p <= |l| && r == Inserted(l, p, e)
    ensures old(Sorted(l)) ==> p == old(Slot(l, e.Key()))
  {
    var lo, hi := 0, |l|;
    while lo < hi
      invariant 0 <= lo <= hi <= |l|
      invariant old(Sorted(l)) ==> forall i :: 0 <= i < lo ==> l[i].Key() <= e.Key()
      invariant old(Sorted(l)) ==> forall i :: hi <= i < |l| ==> e.Key() < l[i].Key()
    {
      var mid := (lo + hi) / 2;
      if e.Key() < l[mid].Key() {
        hi := mid;
      } else {
        lo := mid + 1;
      }
    }
    p := lo;
    r := Inserted(l, lo, e);
    if old(Sorted(l)) {
      SlotIs(l, e.Key(), p);
    }
  }

  lemma {:induction false} PendingIsSorted(tl: seq<TimerEntry>, pl: seq<TimerEntry>, all: set<TimerEntry>)
    requires ListsOk(tl, pl, all)
    ensures Sorted(tl)
    decreases |tl|
  {
    if tl != [] {
      PendingIsSorted(tl[1..], pl, all - {tl[0]});
      NotBeforeMeans(tl[0].Key(), tl[1..], all);
      assert forall i :: 0 < i < |tl| ==> tl[i] == tl[1..][i - 1];
    }
  }

  lemma {:induction false} QueuedOk(tl: seq<TimerEntry>, pl: seq<TimerEntry>, all: set<TimerEntry>, e: TimerEntry)
    requires ListsOk(tl, pl, all) && e !in all && e.Ok() && e.state < ENDED
    ensures ListsOk(Inserted(tl, Slot(tl, e.Key()), e), pl, all + {e})
    decreases |tl|
  {
    var p := Slot(tl, e.Key());
    InsertedTail(tl, p, e);
    if p == 0 {
      assert (all + {e}) - {e} == all;
      if tl != [] {
        NotBeforeLess(tl[0].Key(), e.Key(), tl[1..], all, all + {e});
      }
    } else {
      var h := tl[0];
      QueuedOk(tl[1..], pl, all - {h}, e);
      NotBeforeInserted(h.Key(), tl[1..], p - 1, e, all);
      assert (all + {e}) - {h} == (all - {h}) + {e};
    }
  }

  lemma {:induction false} FinishedOk(tl: seq<TimerEntry>, pl: seq<TimerEntry>, all: set<TimerEntry>, p: nat,
      e: TimerEntry)
    requires ListsOk(tl, pl, all) && e !in all && p <= |pl| && e.Ok() && e.state == ENDED
    ensures ListsOk(tl, Inserted(pl, p, e), all + {e})
    decreases |tl|, |pl|
  {
    InsertedTail(pl, p, e);
    if tl != [] {
      FinishedOk(tl[1..], pl, all - {tl[0]}, p, e);
      NotBeforeLess(tl[0].Key(), tl[0].Key(), tl[1..], all, all + {e});
      assert (all + {e}) - {tl[0]} == (all - {tl[0]}) + {e};
    } else if p == 0 {
      assert (all + {e}) - {e} == all;
    } else {
      FinishedOk(tl, pl[1..], all - {pl[0]}, p - 1, e);
      assert (all + {e}) - {pl[0]} == (all - {pl[0]}) + {e};
    }
  }

  // ---------------------------------------------------------------- removing

  /** list.remove: l without the first occurrence of t. */
  function Minus(l: seq<TimerEntry>, t: TimerEntry): (r: seq<TimerEntry>) {
    if l == [] then [] else if l[0] == t then l[1..] else [l[0]] + Minus(l[1..], t)
  }

  /** Put back where it was, it gives l again. */
  lemma {:induction false} MinusInserted(l: seq<TimerEntry>, t: TimerEntry) returns (p: nat)
    requires t in l
    ensures p <= |Minus(l, t)| && l == Inserted(Minus(l, t), p, t)
  {
    if l[0] == t {
      p := 0;
    } else {
      p := MinusInserted(l[1..], t);
      p := p + 1;
    }
  }

  lemma {:induction false} NotBeforeMinus(k: int, l: seq<TimerEntry>, t: TimerEntry, all: set<TimerEntry>)
    requires NotBefore(k, l, all) && t !in Minus(l, t)
    ensures NotBefore(k, Minus(l, t), all - {t})
    decreases |l|
  {
    if l != [] {
      if l[0] == t {
        NotBeforeWithout(k, l[1..], t, all);
      } else {
        assert Minus(l, t)[1..] == Minus(l[1..], t);
        NotBeforeMinus(k, l[1..], t, all);
      }
    }
  }

  lemma {:induction false} NotBeforeWithout(k: int, l: seq<TimerEntry>, t: TimerEntry, all: set<TimerEntry>)
    requires NotBefore(k, l, all) && t !in l
    ensures NotBefore(k, l, all - {t})
    decreases |l|
  {
    if l != [] {
      NotBeforeWithout(k, l[1..], t, all);
    }
  }

  lemma {:induction false} TakenFromPending(tl: seq<TimerEntry>, pl: seq<TimerEntry>, all: set<TimerEntry>,
      t: TimerEntry)
    requires ListsOk(tl, pl, all) && t in tl
    ensures t !in Minus(tl, t) && ListsOk(Minus(tl, t), pl, all - {t})
    decreases |tl|
  {
    var h := tl[0];
    if h == t {
      Place(tl[1..], pl, all - {h}, t);
    } else {
      TakenFromPending(tl[1..], pl, all - {h}, t);
      NotBeforeMinus(h.Key(), tl[1..], t, all);
      assert Minus(tl, t)[1..] == Minus(tl[1..], t) && (all - {t}) - {h} == (all - {h}) - {t};
    }
  }

  lemma {:induction false} TakenFromFinished(tl: seq<TimerEntry>, pl: seq<TimerEntry>, all: set<TimerEntry>,
      t: TimerEntry)
    requires ListsOk(tl, pl, all) && t in pl
    ensures t !in Minus(pl, t) && ListsOk(tl, Minus(pl, t), all - {t})
    decreases |tl|, |pl|
  {
    if tl != [] {
      var h := tl[0];
      TakenFromFinished(tl[1..], pl, all - {h}, t);
      Place(tl, pl, all, h);
      Place(tl, pl, all, t);
      NotBeforeWithout(h.Key(), tl[1..], t, all);
      assert (all - {t}) - {h} == (all - {h}) - {t};
    } else if pl[0] == t {
      Place(tl, pl[1..], all - {t}, t);
    } else {
      var h := pl[0];
      TakenFromFinished(tl, pl[1..], all - {h}, t);
      assert Minus(pl, t)[1..] == Minus(pl[1..], t) && (all - {t}) - {h} == (all - {h}) - {t};
    }
  }

  // ---------------------------------------------------------------- the measure

  /** What the entries of l, which are in all, can still do. */
  function Work(l: seq<TimerEntry>, all: set<TimerEntry>, now: int): (n: nat)
    reads all
  {
    if l == [] then 0 else (if l[0] in all then Rank(l[0].View(), now) else 0) + Work(l[1..], all, now)
  }

  function Share(e: TimerEntry, now: int): (n: nat)
    reads e
  {
    if Revivable(e.View(), now) then 4 else 0
  }

  function Revival(l: seq<TimerEntry>, all: set<TimerEntry>, now: int): (n: nat)
    reads all
  {
    if l == [] then 0 else (if l[0] in all then Share(l[0], now) else 0) + Revival(l[1..], all, now)
  }

  lemma {:induction false} WorkInMore(l: seq<TimerEntry>, all: set<TimerEntry>, e: TimerEntry, now: int)
    requires e !in l
    ensures Work(l, all + {e}, now) == Work(l, all, now) == Work(l, all - {e}, now)
    ensures Revival(l, all + {e}, now) == Revival(l, all, now) == Revival(l, all - {e}, now)
    decreases |l|
  {
    if l != [] {
      WorkInMore(l[1..], all, e, now);
    }
  }

  lemma {:induction false} WorkInserted(l: seq<TimerEntry>, p: nat, e: TimerEntry, all: set<TimerEntry>, now: int)
    requires p <= |l| && e !in l
    ensures Work(Inserted(l, p, e), all + {e}, now) == Work(l, all, now) + Rank(e.View(), now)
    ensures Revival(Inserted(l, p, e), all + {e}, now) == Revival(l, all, now) + Share(e, now)
    decreases |l|
  {
    InsertedTail(l, p, e);
    if p == 0 {
      WorkInMore(l, all, e, now);
    } else {
      WorkInserted(l[1..], p - 1, e, all, now);
    }
  }

  lemma {:induction false} WorkWithin(l: seq<TimerEntry>, few: set<TimerEntry>, all: set<TimerEntry>, now: int)
    requires few <= all && forall e :: e in l ==> e in few
    ensures Work(l, few, now) == Work(l, all, now) && Revival(l, few, now) == Revival(l, all, now)
    decreases |l|
  {
    if l != [] {
      WorkWithin(l[1..], few, all, now);
    }
  }

  /** The entries fall apart into the pending and the finished ones. */
  lemma {:induction false} Apart(tl: seq<TimerEntry>, pl: seq<TimerEntry>, all: set<TimerEntry>)
      returns (s: set<TimerEntry>)
    requires ListsOk(tl, pl, all)
    ensures s <= all && ListsOk(tl, [], all - s) && ListsOk([], pl, s)
    decreases |tl|
  {
    if tl == [] {
      s := all;
    } else {
      var h := tl[0];
      s := Apart(tl[1..], pl, all - {h});
      assert (all - s) - {h} == (all - {h}) - s;
      NotBeforeMeans(h.Key(), tl[1..], all);
      forall i | 0 <= i < |tl[1..]| ensures tl[1..][i] in all - s {
        Place(tl[1..], [], (all - {h}) - s, tl[1..][i]);
      }
      NotBeforeMeans(h.Key(), tl[1..], all - s);
    }
  }

  /** Nothing that can still be done is lost when they do. */
  lemma ApartDoesAsMuch(tl: seq<TimerEntry>, pl: seq<TimerEntry>, all: set<TimerEntry>, s: set<TimerEntry>, now: int)
    requires s <= all && ListsOk(tl, [], all - s) && ListsOk([], pl, s)
    ensures Work(tl, all - s, now) == Work(tl, all, now) && Revival(pl, s, now) == Revival(pl, all, now)
  {
    forall e | e in tl ensures e in all - s {
      Place(tl, [], all - s, e);
    }
    forall e | e in pl ensures e in s {
      Place([], pl, s, e);
    }
    WorkWithin(tl, all - s, all, now);
    WorkWithin(pl, s, all, now);
  }

  /** The first of the finished ones, and the others. */
  lemma FirstFinished(pl: seq<TimerEntry>, s: set<TimerEntry>, now: int)
    requires ListsOk([], pl, s) && pl != []
    ensures pl[0] in s && pl[0].Ok() && pl[0].state == ENDED && ListsOk([], pl[1..], s - {pl[0]})
    ensures Revival(pl, s, now) == Share(pl[0], now) + Revival(pl[1..], s - {pl[0]}, now)
  {
    Place([], pl[1..], s - {pl[0]}, pl[0]);
    WorkInMore(pl[1..], s, pl[0], now);
  }

  // ---------------------------------------------------------------- the scheduler

  class Timer {
    const zone: int
    var timerList: seq<TimerEntry>
    var processed: seq<TimerEntry>
    var lastActivation: int
    var next: int
    /** The entries in the two lists. */
    ghost var all: set<TimerEntry>

    /** Every entry is in exactly one list; the one is sorted and unfinished, the other finished. */
    ghost predicate Valid()
      reads this, all
    {
      ListsOk(timerList, processed, all)
    }

    /** The wake-up comes before any pending activation, and within the polling interval after the last one. */
    ghost predicate Armed()
      reads this, all
    {
      next <= lastActivation + MAX_WAIT_TIME && NotBefore(next, timerList, all)
    }

    /** Nothing in the list is due. */
    ghost predicate Settled(now: int)
      reads this, all
    {
      NotBefore(now + 1, timerList, all)
    }

    ghost function Load(now: int): (n: nat)
      reads this, all
    {
      Work(timerList, all, now) + Revival(processed, all, now)
    }

    ghost function Phi(now: int): (n: nat)
      reads this, all
    {
      Work(timerList, all, now) + if lastActivation > now then Revival(processed, all, now) else 0
    }

    /** The earlier of the first pending activation and the end of the polling interval. */
    function WakeUp(now: int): (t: int)
      reads this, timerList
    {
      if timerList != [] && timerList[0].Key() < now + MAX_WAIT_TIME then timerList[0].Key() else now + MAX_WAIT_TIME
    }

    constructor (zone: int, now: int)
      ensures Valid() && Armed() && all == {} && this.zone == zone && lastActivation == now
        && next == now + MAX_WAIT_TIME
      ensures timerList == [] && processed == []
    {
      this.zone := zone;
      timerList, processed, all := [], [], {};
      lastActivation, next := now, now + MAX_WAIT_TIME;
    }

    /** insort into the finished ones. */
    method PutFinished(entry: TimerEntry) returns (ghost p: nat)
      requires Valid() && entry !in all && entry.Ok()
      modifies this`processed, this`all, entry`state
      ensures Valid() && all == old(all) + {entry} && entry.View() == old(entry.View()).(state := ENDED)
      ensures p <= |old(processed)| && processed == Inserted(old(processed), p, entry)
    {
      hide ListsOk, NotBefore;
      ghost var pl := processed;
      processed, p := Insort(processed, entry);
      entry.state := ENDED;
      FinishedOk(timerList, pl, all, p, entry);
      all := all + {entry};
    }

    /** Put an entry among the finished ones. */
    method Finish(entry: TimerEntry, now: int)
      requires Valid() && entry !in all && entry.Ok()
      modifies this`processed, this`all, entry`state
      ensures Valid() && all == old(all) + {entry} && entry.View() == old(entry.View()).(state := ENDED)
      ensures Revival(processed, all, now) == old(Revival(processed, all, now)) + Share(entry, now)
      ensures Work(timerList, all, now) == old(Work(timerList, all, now))
      ensures old(NotBefore(next, timerList, all)) ==> NotBefore(next, timerList, all)
    {
      Place(timerList, processed, all, entry);
      ghost var pl, al := processed, all;
      ghost var p := PutFinished(entry);
      WorkInserted(pl, p, entry, al, now);
      WorkInMore(timerList, al, entry, now);
      if NotBefore(next, timerList, al) {
        NotBeforeLess(next, next, timerList, al, all);
      }
    }

    /** insort into the pending ones. */
    method PutPending(entry: TimerEntry)
      requires Valid() && entry !in all && entry.Ok() && entry.state < ENDED
      modifies this`timerList, this`all
      ensures Valid() && all == old(all) + {entry}
      ensures timerList == Inserted(old(timerList), old(Slot(timerList, entry.Key())), entry)
    {
      hide ListsOk, NotBefore;
      PendingIsSorted(timerList, processed, all);
      QueuedOk(timerList, processed, all, entry);
      ghost var p;
      timerList, p := Insort(timerList, entry);
      all := all + {entry};
    }

    /** Put an entry into the list of pending ones. */
    method Queue(entry: TimerEntry, now: int)
      requires Valid() && entry !in all && entry.Ok() && entry.state < ENDED
      modifies this`timerList, this`all
      ensures Valid() && all == old(all) + {entry}
      ensures Work(timerList, all, now) == old(Work(timerList, all, now)) + Rank(entry.View(), now)
      ensures Revival(processed, all, now) == old(Revival(processed, all, now))
    {
      Place(timerList, processed, all, entry);
      ghost var p, tl, al := Slot(timerList, entry.Key()), timerList, all;
      PutPending(entry);
      WorkInserted(tl, p, entry, al, now);
      WorkInMore(processed, al, entry, now);
    }

    /** processRepeated of an entry that is in no list. */
    method MoveToFit(entry: TimerEntry, now: int)
      requires Valid() && entry !in all && entry.Ok()
      modifies entry
      ensures Valid() && entry.Ok() && Moved(old(entry.View()), entry.View(), zone, now, true)
      ensures Work(timerList, all, now) == old(Work(timerList, all, now))
      ensures Revival(processed, all, now) == old(Revival(processed, all, now))
      ensures old(NotBefore(next, timerList, all)) ==> NotBefore(next, timerList, all)
    {
      ghost var v := entry.View();
      entry.ProcessRepeated(zone, now, true);
      MovedIsNotOver(v, entry.View(), zone, now);
    }

    /**
     addTimerEntry without the recalculation: after repetition, an entry that is over, ended or disabled is finished.
     */
    method Enqueue(entry: TimerEntry, now: int) returns (queued: bool)
      requires Valid() && entry !in all && entry.Ok()
      modifies this`timerList, this`processed, this`all, entry
      ensures Valid() && all == old(all) + {entry}
      ensures queued <==> Goes(old(entry.View()), now)
      ensures Placed(old(entry.View()), entry.View(), zone, now)
      ensures entry.state == (if queued then old(entry.state) else ENDED)
      ensures if queued then entry in timerList && processed == old(processed)
        else entry in processed && timerList == old(timerList)
      ensures !queued && old(NotBefore(next, timerList, all)) ==> NotBefore(next, timerList, all)
      ensures Work(timerList, all, now) <= old(Work(timerList, all, now))
        + (if queued then Cap(old(entry.View()), now) else 0)
      ensures Revival(processed, all, now) <= old(Revival(processed, all, now))
        + (if queued then 0 else Cap(old(entry.View()), now))
    {
      hide ListsOk, NotBefore, Work, Revival, Moved, Slot;
      ghost var v := entry.View();
      MoveToFit(entry, now);
      ghost var u := entry.View();
      MovedIsNotOver(v, u, zone, now);
      if (entry.end <= now && entry.state == WAITING) || entry.state == ENDED
        || (entry.state == WAITING && entry.disabled) {
        Finish(entry, now);
        assert entry.View().(state := v.state) == u;
        queued := false;
      } else {
        Queue(entry, now);
        queued := true;
      }
      Place(timerList, processed, all, entry);
    }

    /** Take the first entry out of the list. */
    method Dequeue(now: int) returns (w: TimerEntry)
      requires Valid() && timerList != []
      modifies this`timerList, this`all
      ensures Valid() && w == old(timerList)[0] && w in old(all) && w.Ok() && w.state < ENDED && all == old(all) - {w}
      ensures Work(timerList, all, now) + Rank(w.View(), now) == old(Work(timerList, all, now))
      ensures Revival(processed, all, now) == old(Revival(processed, all, now))
    {
      w := timerList[0];
      Place(timerList[1..], processed, all - {w}, w);
      WorkInMore(timerList[1..], all, w, now);
      WorkInMore(processed, all, w, now);
      timerList := timerList[1..];
      all := all - {w};
    }

    /** Take out the entry that is due first, and skip or activate it. Answers that move nothing are ruled out. */
    method RunFirst(now: int) returns (w: TimerEntry, ghost a: Answer)
      requires Valid() && timerList != [] && timerList[0].Key() <= now
      modifies this`timerList, this`all, all
      ensures Valid() && w == old(timerList)[0] && w in old(all) && all == old(all) - {w} && w.Ok()
      ensures !a.prepare.Unavailable? && w.View() == Advanced(old(timerList[0].View()), now, a)
      ensures forall e :: e in all ==> e.View() == old(e.View())
      ensures Phi(now) + (if w.state < ENDED then Rank(w.View(), now) + 1 else 9) <= old(Phi(now))
      ensures w.state == ENDED ==> w.end <= now
    {
      hide ListsOk, NotBefore, Work, Revival, Activated;
      w := Dequeue(now);
      var answer: Answer := *;
      if answer.prepare.Unavailable? {
        answer := answer.(prepare := Refused);
      }
      a := answer;
      AdvancedDoesLess(w.View(), now, a);
      w.Advance(now, answer);
    }

    /** A repeated entry that has ended waits for its next day. */
    method Repeat(w: TimerEntry, now: int)
      requires Valid() && w !in all && w.Ok() && w.state == ENDED && w.repeated != 0
      modifies w
      ensures Valid() && w.Ok() && Phi(now) == old(Phi(now)) && Cap(w.View(), now) <= 4
      ensures Moved(old(w.View()), w.View().(state := ENDED), zone, now, true) && w.state == WAITING
        && w.disabled == old(w.disabled)
      ensures Goes(w.View(), now) <==> !w.disabled
    {
      hide ListsOk, NotBefore, Work, Revival, Moved;
      ghost var v := w.View();
      MoveToFit(w, now);
      MovedIsNotOver(v, w.View(), zone, now);
      ghost var u := w.View();
      w.state := WAITING;
      assert w.View().(state := ENDED) == u;
    }

    /** A repeated entry that has ended is added again; that can make the scheduler run other entries. */
    method AddAgain(w: TimerEntry, now: int)
      requires Valid() && w !in all && w.Ok() && w.state == ENDED && w.repeated != 0
      modifies this, all, w
      ensures Valid() && all == old(all) + {w} && Phi(now) <= old(Phi(now)) + 4
      ensures lastActivation == old(lastActivation) || lastActivation == now
      ensures if old(w.disabled) then w.state == ENDED && forall e :: e in old(all) ==> e.View() == old(e.View())
        else Settled(now)
      ensures forall e :: e in old(all) ==> Evolves(old(e.View()), e.View(), zone, now, old(lastActivation) > now)
      ensures GoesOn(old(w.View()), w.View(), zone, now, old(lastActivation) > now)
      decreases Phi(now) + 4, 4
    {
      hide ListsOk, NotBefore, Work, Revival, Moved, Evolves, Enters, GoesOn;
      ghost var v, setBack := w.View(), lastActivation > now;
      Repeat(w, now);
      ghost var x := w.View();
      var queued := AddTimerEntry(w, now);
      AddedGoesOn(v, x, w.View(), zone, now, setBack);
    }

    /** What doActivate does with the entry it has run. */
    method PutBack(w: TimerEntry, now: int)
      requires Valid() && w !in all && w.Ok()
      modifies this, all, w
      ensures Valid() && all == old(all) + {w}
      ensures Phi(now) <= old(Phi(now))
        + old(if w.state < ENDED then Rank(w.View(), now) else if w.repeated != 0 || w.end > now then 4 else 0)
      ensures lastActivation == old(lastActivation) || lastActivation == now
      ensures if Returns(old(w.View())) then Settled(now)
        else SameButRepeated(old(w.View()), w.View()) && forall e :: e in old(all) ==> e.View() == old(e.View())
      ensures forall e :: e in old(all) ==> Evolves(old(e.View()), e.View(), zone, now, old(lastActivation) > now)
      ensures GoesOn(old(w.View()), w.View(), zone, now, old(lastActivation) > now)
      decreases Phi(now) + (if w.state == ENDED then 4 else 0), 5
    {
      hide Moved, ListsOk, NotBefore, Work, Revival, Evolves, GoesOn;
      EvolvesJoins(zone, now);
      StaysGoesOn(w.View(), zone, now);
      if w.state < ENDED {
        Queue(w, now);
      } else if w.repeated != 0 {
        AddAgain(w, now);
      } else {
        Finish(w, now);
      }
    }

    /**
     doActivate: run the entry that is due first. If it ends and repeats, it is added again, and the scheduler may
     run other entries before it returns; otherwise no other entry changes.
     */
    method DoActivate(now: int) returns (ghost w: TimerEntry, ghost a: Answer)
      requires Valid() && timerList != [] && timerList[0].Key() <= now
      modifies this, all
      ensures Valid() && all == old(all)
      ensures Phi(now) < old(Phi(now))
      ensures w == old(timerList)[0] && !a.prepare.Unavailable?
      ensures var u := Advanced(old(timerList[0].View()), now, a);
        if Returns(u) then Settled(now)
        else SameButRepeated(u, w.View()) && forall e :: e in all && e != w ==> e.View() == old(e.View())
      ensures lastActivation == old(lastActivation) || lastActivation == now
      ensures forall e :: e in all ==> Evolves(old(e.View()), e.View(), zone, now, old(lastActivation) > now)
      decreases Phi(now), 0
    {
      hide Moved, ListsOk, NotBefore, Work, Revival, Advanced, Activated, Evolves, GoesOn;
      ghost var v, setBack := timerList[0].View(), lastActivation > now;
      PendingFirst();
      var x;
      x, a := RunFirst(now);
      w := x;
      PutBack(x, now);
      RunEvolves(v, x.View(), a, zone, now, setBack);
    }

    /** The first pending entry is one of all, and unfinished. */
    lemma PendingFirst()
      requires Valid() && timerList != []
      ensures timerList[0] in all && timerList[0].Ok() && timerList[0].state < ENDED
    {
    }

    /** addTimerEntry: an entry that is queued makes the scheduler look for work at once. */
    method AddTimerEntry(entry: TimerEntry, now: int) returns (queued: bool)
      requires Valid() && entry !in all && entry.Ok()
      modifies this, all, entry
      ensures Valid() && all == old(all) + {entry}
      ensures queued <==> Goes(old(entry.View()), now)
      ensures queued ==> Settled(now) && Armed() && lastActivation == now && next == WakeUp(now)
      ensures !queued ==>
        entry in processed && timerList == old(timerList) && next == old(next) && lastActivation == old(lastActivation)
      ensures !queued ==> entry.state == ENDED && forall e :: e in old(all) ==> e.View() == old(e.View())
      ensures !queued ==> Placed(old(entry.View()), entry.View(), zone, now)
      ensures next <= now + MAX_WAIT_TIME <==> Goes(old(entry.View()), now) || old(next) <= now + MAX_WAIT_TIME
      ensures old(Armed()) ==> Armed()
      ensures Phi(now) <= old(Phi(now)) + Cap(old(entry.View()), now)
      ensures forall e :: e in old(all) ==> Evolves(old(e.View()), e.View(), zone, now, old(lastActivation) > now)
      ensures Enters(old(entry.View()), entry.View(), zone, now, old(lastActivation) > now)
      decreases Phi(now) + Cap(entry.View(), now), 3
    {
      hide Moved, ListsOk, NotBefore, Work, Revival, Cap, Goes, Rank, Evolves;
      EvolvesJoins(zone, now);
      queued := Enqueue(entry, now);
      if queued {
        CalcNextActivation(now);
      }
    }

    /** Set the wake-up. */
    method Arm(now: int)
      requires Valid() && Settled(now)
      modifies this`next, this`lastActivation
      ensures Valid() && Settled(now) && Armed() && lastActivation == now && next == WakeUp(now)
        && Phi(now) <= old(Phi(now))
    {
      lastActivation := now;
      var min := now + MAX_WAIT_TIME;
      if timerList != [] {
        var w := timerList[0].Key();
        if w < min {
          min := w;
        }
      }
      next := min;
      FirstIsNext(now);
    }

    /** The wake-up is the end of the polling interval, or the first activation if that comes earlier. */
    lemma WakeUpIs(now: int)
      requires Valid()
      ensures WakeUp(now) <= now + 100 && forall e :: e in timerList ==> WakeUp(now) <= e.Key()
      ensures WakeUp(now) == now + 100 || exists e :: e in timerList && WakeUp(now) == e.Key()
    {
      PendingIsSorted(timerList, processed, all);
      if timerList != [] {
        assert timerList[0] in timerList;
      }
    }

    lemma FirstIsNext(now: int)
      requires Valid()
      ensures NotBefore(WakeUp(now), timerList, all)
    {
      if timerList != [] {
        NotBeforeLess(timerList[0].Key(), WakeUp(now), timerList[1..], all, all);
      }
    }

    /** calcNextActivation: after the clock was set back, finished entries get another chance first. */
    method CalcNextActivation(now: int)
      requires Valid()
      modifies this, all
      ensures Valid() && all == old(all) && Settled(now) && Armed() && lastActivation == now && next == WakeUp(now)
      ensures Phi(now) <= old(Phi(now))
      ensures forall e :: e in all ==> Evolves(old(e.View()), e.View(), zone, now, old(lastActivation) > now)
      decreases Phi(now), 2
    {
      hide ListsOk, NotBefore, Work, Revival, Evolves, Revived;
      EvolvesJoins(zone, now);
      RevivedEvolves(zone, now);
      if lastActivation > now {
        ReviveAll(now);
      }
      ProcessActivation(now);
      Arm(now);
    }

    /** Run entries until none is due. */
    method ProcessActivation(now: int)
      requires Valid()
      modifies this, all
      ensures Valid() && all == old(all) && Settled(now)
      ensures Phi(now) <= old(Phi(now))
      ensures lastActivation == old(lastActivation) || lastActivation == now
      ensures forall e :: e in all ==> Evolves(old(e.View()), e.View(), zone, now, old(lastActivation) > now)
      decreases Phi(now), 1
    {
      hide ListsOk, NotBefore, Work, Revival, Advanced, Activated, Evolves;
      EvolvesJoins(zone, now);
      var t := now + 1;
      while timerList != [] && timerList[0].Key() < t
        invariant Valid() && all == old(all) && Phi(now) <= old(Phi(now))
        invariant lastActivation == old(lastActivation) || lastActivation == now
        invariant forall e :: e in all ==> Evolves(old(e.View()), e.View(), zone, now, old(lastActivation) > now)
        decreases Phi(now)
      {
        ghost var w, a := DoActivate(now);
      }
      NothingDue(now);
    }

    lemma NothingDue(now: int)
      requires Valid() && (timerList != [] ==> timerList[0].Key() > now)
      ensures Settled(now)
    {
      if timerList != [] {
        NotBeforeLess(timerList[0].Key(), now + 1, timerList[1..], all, all);
      }
    }

    /** A finished entry gets another chance: it waits again, and stays so exactly if it can come back to life. */
    method ReviveOne(x: TimerEntry, now: int)
      requires Valid() && x !in all && x.Ok() && x.state == ENDED
      modifies this`timerList, this`processed, this`all, x
      ensures Valid() && all == old(all) + {x} && Load(now) <= old(Load(now)) + old(Share(x, now))
      ensures Revived(old(x.View()), x.View(), zone, now)
    {
      ghost var v := x.View();
      Reset(x, now);
      var queued := Enqueue(x, now);
      assert queued <==> Revivable(v, now);
    }

    /** Take all finished entries out of their list. */
    method TakeFinished(now: int) returns (tl: seq<TimerEntry>, ghost rest: set<TimerEntry>)
      requires Valid()
      modifies this`processed, this`all
      ensures Valid() && tl == old(processed) && processed == [] && rest <= old(all) && all == old(all) - rest
      ensures ListsOk([], tl, rest) && Load(now) + Revival(tl, rest, now) == old(Load(now))
    {
      tl := processed;
      rest := Apart(timerList, processed, all);
      ApartDoesAsMuch(timerList, processed, all, rest, now);
      processed := [];
      all := all - rest;
    }

    /** The next of the finished ones that were taken out gets another chance. */
    method ReviveNext(x: TimerEntry, now: int, ghost l: seq<TimerEntry>, ghost rest: set<TimerEntry>)
      requires Valid() && rest !! all && l != [] && l[0] == x && ListsOk([], l, rest)
      modifies this`timerList, this`processed, this`all, x
      ensures Valid() && x in rest && all == old(all) + {x} && ListsOk([], l[1..], rest - {x})
      ensures Load(now) + Revival(l[1..], rest - {x}, now) <= old(Load(now) + Revival(l, rest, now))
      ensures Revived(old(x.View()), x.View(), zone, now)
    {
      hide Timer.Valid, ListsOk, Work, Revival, Revived, Share;
      FirstFinished(l, rest, now);
      ReviveOne(x, now);
    }

    /** Re-evaluate all finished entries. */
    method ReviveAll(now: int)
      requires Valid() && lastActivation > now
      modifies this`timerList, this`processed, this`all, all
      ensures Valid() && all == old(all) && Load(now) <= old(Load(now))
      ensures forall e :: e in all ==> Revived(old(e.View()), e.View(), zone, now)
    {
      hide Timer.Valid, ListsOk, Work, Revival, Revived, Share, Timer.Load, TimerEntry.View;
      var tl;
      ghost var rest;
      tl, rest := TakeFinished(now);
      OthersStay(now);
      assert tl[0..] == tl;
      for k := 0 to |tl|
        invariant Valid() && rest <= old(all) && all == old(all) - rest
        invariant ListsOk([], tl[k..], rest) && Load(now) + Revival(tl[k..], rest, now) <= old(Load(now))
        invariant forall e :: e in rest ==> e.View() == old(e.View())
        invariant forall e :: e in all ==> Revived(old(e.View()), e.View(), zone, now)
      {
        assert tl[k..][1..] == tl[k + 1..];
        assert tl[k] in rest by {
          FirstFinished(tl[k..], rest, now);
        }
        OneMore(old(all), rest, tl[k]);
        ReviveNext(tl[k], now, tl[k..], rest);
        rest := rest - {tl[k]};
      }
      RestIsDone(rest);
    }

    lemma OneMore(all: set<TimerEntry>, rest: set<TimerEntry>, x: TimerEntry)
      requires x in rest && rest <= all
      ensures all - rest !! rest && all - (rest - {x}) == (all - rest) + {x}
    {
    }

    lemma OthersStay(now: int)
      requires Valid() && processed == []
      ensures forall e :: e in all ==> Revived(e.View(), e.View(), zone, now)
    {
      forall e | e in all ensures Revived(e.View(), e.View(), zone, now) {
        Place(timerList, processed, all, e);
      }
    }

    lemma RestIsDone(rest: set<TimerEntry>)
      requires ListsOk([], [], rest)
      ensures rest == {}
    {
    }

    method Reset(x: TimerEntry, now: int)
      requires Valid() && x !in all && x.Ok()
      modifies x
      ensures Valid() && Load(now) == old(Load(now)) && x.Ok() && x.View() == Restarted(old(x.View()))
    {
      x.ResetState();
    }

    // -------------------------------------------------------------- edited and removed entries

    /** The list of pending entries but for t. */
    ghost function PendingBut(t: TimerEntry): (l: seq<TimerEntry>)
      reads this, t
    {
      if t.state == ENDED then timerList else Minus(timerList, t)
    }

    /** All is well but for one entry, whose times may have been edited. */
    ghost predicate ValidBut(t: TimerEntry)
      reads this, all, t
    {
      && t in all && t.Ok() && t in (if t.state == ENDED then processed else timerList)
      && ListsOk(PendingBut(t), if t.state == ENDED then Minus(processed, t) else processed, all - {t})
    }

    ghost predicate ArmedBut(t: TimerEntry)
      reads this, all, t
    {
      next <= lastActivation + MAX_WAIT_TIME && NotBefore(next, PendingBut(t), all - {t})
    }

    lemma ValidMeansBut(t: TimerEntry)
      requires Valid() && t in all
      ensures ValidBut(t) && (Armed() ==> ArmedBut(t))
    {
      Place(timerList, processed, all, t);
      if t in timerList {
        TakenFromPending(timerList, processed, all, t);
        if Armed() {
          NotBeforeMinus(next, timerList, t, all);
        }
      } else {
        TakenFromFinished(timerList, processed, all, t);
        if Armed() {
          NotBeforeWithout(next, timerList, t, all);
        }
      }
    }

    /** The caller edits an entry before it calls timeChanged. */
    method Edit(t: TimerEntry, begin: int, end: int, repeated: int, disabled: bool)
      requires Valid() && t in all && (repeated == 0 || HasDay(repeated))
      modifies t
      ensures ValidBut(t) && (old(Armed()) ==> ArmedBut(t))
      ensures t.View() == old(t.View()).(begin := begin, end := end, repeated := repeated, disabled := disabled)
    {
      hide ListsOk, NotBefore, Minus;
      ValidMeansBut(t);
      t.begin, t.end, t.repeated, t.disabled := begin, end, repeated, disabled;
    }

    /** The first half of timeChanged: take the entry out of its list; a finished one waits again. */
    method TakeOut(t: TimerEntry)
      requires ValidBut(t)
      modifies this`timerList, this`processed, this`all, t`startPrepare, t`backoff, t`state
      ensures Valid() && all == old(all) - {t} && t.Ok() && (old(ArmedBut(t)) ==> Armed())
      ensures t.View() == Changed(old(t.View()))
    {
      hide ListsOk, NotBefore;
      t.TimeChanged();
      if t.state == ENDED {
        processed := Minus(processed, t);
      } else {
        timerList := Minus(timerList, t);
      }
      if t.state == ENDED {
        t.state := WAITING;
      }
      all := all - {t};
    }

    /**
     timeChanged: take the edited entry out, and give it a chance to be queued again. If it is not, it is finished,
     and nothing else changes.
     */
    method TimeChanged(t: TimerEntry, now: int) returns (queued: bool)
      requires ValidBut(t)
      modifies this, all
      ensures Valid() && all == old(all) && (old(ArmedBut(t)) ==> Armed())
      ensures queued <==> Goes(Changed(old(t.View())), now)
      ensures queued ==> Settled(now) && Armed() && lastActivation == now && next == WakeUp(now)
      ensures !queued ==>
        t in processed && t.state == ENDED && next == old(next) && lastActivation == old(lastActivation)
      ensures !queued ==> forall e :: e in all && e != t ==> e.View() == old(e.View())
      ensures next <= now + MAX_WAIT_TIME <==> Goes(Changed(old(t.View())), now) || old(next) <= now + MAX_WAIT_TIME
      ensures forall e :: e in all && e != t ==> Evolves(old(e.View()), e.View(), zone, now, old(lastActivation) > now)
      ensures Enters(Changed(old(t.View())), t.View(), zone, now, old(lastActivation) > now)
    {
      hide ListsOk, NotBefore, Work, Revival, Goes, Changed, Enters, Evolves, Moved;
      TakeOut(t);
      queued := AddTimerEntry(t, now);
    }

    /** A doomed entry does not wait for anything. */
    lemma DoomedHasEnded(t: TimerEntry, now: int)
      requires Valid() && Settled(now) && t in all && Doomed(t.View(), now)
      ensures t.state == ENDED
    {
      Place(timerList, processed, all, t);
      NotBeforeMeans(now + 1, timerList, all);
      DoomedStaysDoomed(t.View(), now, Answer(Done, 0, None));
    }

    /** Abort an entry, so that it ends, and is not added again. */
    method AbortEntry(entry: TimerEntry, now: int)
      requires Valid() && entry in all
      modifies this, all
      ensures Valid() && all == old(all) && (old(Armed()) ==> Armed())
      ensures entry.state == ENDED && Doomed(entry.View(), now)
    {
      hide ListsOk, NotBefore, Work, Revival, Goes, Changed, Doomed, Enters, Evolves;
      ghost var v, setBack := entry.View(), lastActivation > now;
      ValidMeansBut(entry);
      entry.repeated := 0;
      entry.autoincrease := false;
      entry.Abort(now);
      AbortedIsDoomed(v, now);
      if entry.state != ENDED {
        var queued := TimeChanged(entry, now);
        EntersDoomed(Changed(Aborted(v, now)), entry.View(), zone, now, setBack);
        if queued {
          DoomedHasEnded(entry, now);
        }
      } else {
        StaysInPlace(entry);
      }
    }

    /** Prolong a pending entry if it can be, and let the scheduler take notice. */
    method Prolong(x: TimerEntry, now: int)
      requires Valid() && x in timerList
      modifies this, all
      ensures Valid() && all == old(all) && (old(Armed()) ==> Armed())
      ensures forall e :: e in all && e != x ==> Evolves(old(e.View()), e.View(), zone, now, old(lastActivation) > now)
      ensures Settled(now) || forall e :: e in all && e != x ==> e.View() == old(e.View())
    {
      hide ListsOk, NotBefore, Work, Revival, Goes, Changed, Enters, Evolves, Minus, ProlongedEnd;
      EvolvesJoins(zone, now);
      Place(timerList, processed, all, x);
      ValidMeansBut(x);
      var a: Answer := *;
      var ok := x.SetAutoincreaseEnd(now, a);
      if ok {
        var queued := TimeChanged(x, now);
      }
    }

    /** Prolonging any other entry leaves one that has been aborted where it is. */
    method ProlongBeside(entry: TimerEntry, x: TimerEntry, now: int)
      requires Valid() && x in timerList
      requires entry in all && entry.state == ENDED && Doomed(entry.View(), now)
      modifies this, all
      ensures Valid() && all == old(all) && (old(Armed()) ==> Armed())
      ensures entry.state == ENDED && Doomed(entry.View(), now)
    {
      hide ListsOk, NotBefore, Doomed, Evolves;
      ghost var v, setBack := entry.View(), lastActivation > now;
      Place(timerList, processed, all, x);
      Prolong(x, now);
      EvolvesMeans(v, entry.View(), zone, now, setBack);
      if Settled(now) {
        DoomedHasEnded(entry, now);
      }
    }

    /** list.remove fails unless the entry is in the list. */
    method RemoveFinished(entry: TimerEntry)
      requires Valid() && entry in processed
      modifies this`processed, this`all
      ensures Valid() && all == old(all) - {entry} && (old(Armed()) ==> Armed())
      ensures timerList == old(timerList) && processed == Minus(old(processed), entry)
    {
      Place(timerList, processed, all, entry);
      ValidMeansBut(entry);
      processed := Minus(processed, entry);
      all := all - {entry};
    }

    /**
     removeEntry: whatever its state, the entry has ended and is among the finished ones when it is taken out of them,
     even though prolonging the others may have made the scheduler work. The list is walked by index while it changes.
     */
    method RemoveEntry(entry: TimerEntry, now: int, dontSave: bool)
      requires Valid() && entry in all
      modifies this, all
      ensures Valid() && all == old(all) - {entry} && (old(Armed()) ==> Armed())
      ensures entry.state == ENDED && entry !in timerList && entry !in processed
    {
      hide ListsOk, NotBefore, Doomed;
      AbortEntry(entry, now);
      if !dontSave {
        var i := 0;
        while i < |timerList|
          invariant Valid() && all == old(all) && (old(Armed()) ==> Armed())
          invariant entry.state == ENDED && Doomed(entry.View(), now)
          decreases |all| - i
        {
          Once(timerList, processed, all);
          ProlongBeside(entry, timerList[i], now);
          i := i + 1;
        }
      }
      Place(timerList, processed, all, entry);
      RemoveFinished(entry);
      Place(timerList, processed, all, entry);
    }

    /** A finished entry may be edited freely. */
    lemma StaysInPlace(t: TimerEntry)
      requires ValidBut(t) && t.state == ENDED
      ensures Valid() && (ArmedBut(t) ==> Armed())
    {
      var p := MinusInserted(processed, t);
      FinishedOk(timerList, Minus(processed, t), all - {t}, p, t);
      assert (all - {t}) + {t} == all;
      if ArmedBut(t) {
        NotBeforeLess(next, next, timerList, all - {t}, all);
      }
    }
  }

  /** An entry that has been run and does not repeat goes on as it is. */
  lemma StaysGoesOn(v: Entry, zone: int, now: int)
    ensures v.state < ENDED || v.repeated == 0 ==> forall setBack :: GoesOn(v, v, zone, now, setBack)
  {
    EvolvesJoins(zone, now);
    if v.state < ENDED || v.repeated == 0 {
      forall setBack ensures GoesOn(v, v, zone, now, setBack) {
        assert Again(v, v, zone, now) && Evolves(v, v, zone, now, setBack);
      }
    }
  }

  /** An entry that has just been run is added again, and is pending then. */
  predicate Returns(v: Entry) {
    v.state == ENDED && v.repeated != 0 && !v.disabled
  }

  /** The same, but for an ended entry that repeats, whose day may be another. */
  predicate SameButRepeated(v: Entry, u: Entry) {
    u.state == v.state && (v.state < ENDED || v.repeated == 0 ==> u == v)
  }

  /**
   After the clock was set back by more than the wake-up is away, an entry that does not go leaves the wake-up where
   it is, further in the future than the polling interval.
   */
  method WakeUpAfterClockSetBack() returns (t: Timer, entry: TimerEntry, queued: bool)
    ensures t.Valid() && t.Armed() && t.lastActivation == 1000 && entry in t.all && entry.end == 20 && !queued
    ensures t.next == 1100 > 500 + MAX_WAIT_TIME
  {
    t := new Timer(0, 1000);
    entry := new TimerEntry(10, 20, false);
    queued := t.AddTimerEntry(entry, 500);
  }
}
