/**
 A timer entry: its four states, what happens to it when it is activated, and
 how it repeats. The record timer is the entry. Time does not pass during one
 call: every clock reading in it is the same now. What the record service and
 the sanity check answer is arbitrary.
 */
module TimerEntries {
  import opened Calendar
  import opened Wrappers

  const WAITING := 0
  const PREPARED := 1
  const RUNNING := 2
  const ENDED := 3

  const PREPARE_TIME := 20
  const BACKOFF_MIN := 5
  const BACKOFF_MAX := 100

  /** The fields of an entry. */
  datatype Entry = Entry(
    begin: int,
    end: int,
    state: int,
    repeated: int,
    repeatedBegin: int,
    startPrepare: int,
    backoff: int,
    disabled: bool,
    cancelled: bool,
    firstTryPrepare: bool,
    autoincrease: bool,
    justplay: bool,
    autoincreaseTime: int)

  ghost predicate EntryOk(v: Entry) {
    0 <= v.state <= ENDED && v.backoff >= 0 && (v.repeated == 0 || HasDay(v.repeated))
  }

  /** getNextActivation */
  function KeyOf(v: Entry): (t: int) {
    if v.state == ENDED then v.end
    else if v.state + 1 == PREPARED then v.startPrepare
    else if v.state + 1 == RUNNING then v.begin
    else v.end
  }

  predicate Skips(v: Entry, now: int) {
    v.end <= now && v.state == WAITING
  }

  /** An entry that is pending but not due. */
  predicate Resting(v: Entry, now: int) {
    v.state < ENDED && KeyOf(v) > now
  }

  /**
   An entry that goes to the pending ones when it is added: after repetition it is neither over, nor ended, nor
   disabled.
   */
  predicate Goes(v: Entry, now: int) {
    v.state != ENDED && !(v.state == WAITING && (v.disabled || (v.repeated == 0 && v.end <= now)))
  }

  // ---------------------------------------------------------------- repetition

  /** What processRepeated looks at; its clock is one second ahead. */
  function RepeatOf(v: Entry, zone: int, now: int, findRunning: bool): (r: Repeat) {
    Repeat(zone, v.repeated, v.repeatedBegin, v.begin, v.end, now + 1, findRunning)
  }

  /** k days later, and at least one second long. */
  function Later(v: Entry, k: int): (u: Entry) {
    var begin, end := v.begin + k * DAY, v.end + k * DAY;
    v.(begin := begin, end := if begin == end then end + 1 else end, startPrepare := begin - PREPARE_TIME, backoff := 0)
  }

  /** u is v on the first day that fits. */
  ghost predicate Moved(v: Entry, u: Entry, zone: int, now: int, findRunning: bool)
    requires v.repeated >= 0
  {
    if v.repeated == 0 then u == v
    else exists k: nat {:trigger Later(v, k)} :: IsOffset(RepeatOf(v, zone, now, findRunning), k) && u == Later(v, k)
  }

  /** The k-th day is the first on which the entry may stay, and it is moved by whole days. */
  ghost predicate LandsOn(v: Entry, u: Entry, k: nat, zone: int, now: int, findRunning: bool) {
    && MayStay(v, k, zone, now, findRunning)
    && (forall j: nat :: j < k ==> !MayStay(v, j, zone, now, findRunning))
    && u == v.(
         begin := v.begin + k * 86400, end := v.end + k * 86400 + (if v.begin == v.end then 1 else 0),
         startPrepare := v.begin + k * 86400 - 20, backoff := 0)
  }

  /** A repeated entry is moved to the first of the days on which it may stay. */
  lemma MovedLands(v: Entry, u: Entry, zone: int, now: int, findRunning: bool)
    requires v.repeated > 0 && Moved(v, u, zone, now, findRunning)
    ensures exists k: nat :: LandsOn(v, u, k, zone, now, findRunning)
  {
    var r := RepeatOf(v, zone, now, findRunning);
    var k: nat :| IsOffset(r, k) && u == Later(v, k);
    MayStayMeans(v, k, zone, now, findRunning);
    forall j: nat | j < k ensures !MayStay(v, j, zone, now, findRunning) {
      MayStayMeans(v, j, zone, now, findRunning);
    }
    assert LandsOn(v, u, k, zone, now, findRunning);
  }

  lemma MovedBy(v: Entry, k: nat, zone: int, now: int, findRunning: bool)
    requires EntryOk(v) && v.repeated != 0 && IsOffset(RepeatOf(v, zone, now, findRunning), k)
    ensures Moved(v, Later(v, k), zone, now, findRunning)
    ensures exists j: nat :: LandsOn(v, Later(v, k), j, zone, now, findRunning)
  {
    MovedLands(v, Later(v, k), zone, now, findRunning);
  }

  lemma StaysAsIs(v: Entry, zone: int, now: int, findRunning: bool)
    ensures v.repeated == 0 ==> Moved(v, v, zone, now, findRunning)
  {
  }

  /** A repeated entry is not over, and is repeated and disabled as before. */
  lemma MovedIsNotOver(v: Entry, u: Entry, zone: int, now: int)
    requires EntryOk(v) && Moved(v, u, zone, now, true)
    ensures EntryOk(u) && u.state == v.state && u.disabled == v.disabled && u.repeated == v.repeated
    ensures v.repeated != 0 ==> u.end > now
    ensures Skips(u, now) || u.state == ENDED || (u.state == WAITING && u.disabled) <==> !Goes(v, now)
    ensures if Goes(v, now) then Rank(u, now) <= Cap(v, now) else Revivable(u, now) ==> Cap(v, now) >= 4
  {
    if v.repeated != 0 {
      var r := RepeatOf(v, zone, now, true);
      var k: nat :| IsOffset(r, k) && u == Later(v, k);
      assert !MoveOn(r, k);
    }
  }

  /**
   An entry may stay k days later: that is a day of its mask, not before its first day, and its end, or its begin if
   a running event is not wanted, lies in the future; a second more, once it has been moved.
   */
  ghost predicate MayStay(v: Entry, k: int, zone: int, now: int, findRunning: bool) {
    && OnMaskDay(v.repeated, zone, v.begin + k * 86400)
    && v.begin + k * 86400 >= v.repeatedBegin
    && (if findRunning then v.end else v.begin) + k * 86400 > (if k > 0 then now + 1 else now)
  }

  lemma MayStayMeans(v: Entry, k: int, zone: int, now: int, findRunning: bool)
    requires v.repeated >= 0
    ensures MayStay(v, k, zone, now, findRunning) <==> !MoveOn(RepeatOf(v, zone, now, findRunning), k)
  {
    WeekdayMeans(v.repeated, zone, v.begin + k * 86400);
  }

  /** The day that fits is unique, and so is where the entry is moved. */
  lemma MovedIsUnique(v: Entry, u: Entry, w: Entry, zone: int, now: int, findRunning: bool)
    requires v.repeated >= 0 && Moved(v, u, zone, now, findRunning) && Moved(v, w, zone, now, findRunning)
    ensures u == w
  {
    if v.repeated != 0 {
      var r := RepeatOf(v, zone, now, findRunning);
      var j: nat :| IsOffset(r, j) && u == Later(v, j);
      var k: nat :| IsOffset(r, k) && w == Later(v, k);
      OneOffset(r, j, k);
    }
  }

  // ---------------------------------------------------------------- activation

  /** Prepared; refused by the record service; or given up before it was asked, because there is nothing to record. */
  datatype Prepare = Done | Refused | Unavailable

  /** What the outside answers to one activation: to prepare, to start, and the begin of the next conflicting timer. */
  datatype Answer = Answer(prepare: Prepare, start: int, conflict: Option<int>)

  /** do_backoff */
  function NextBackoff(backoff: int): (b: int)
    ensures backoff >= 0 ==> 0 < b <= BACKOFF_MAX
  {
    if backoff == 0 then BACKOFF_MIN else if backoff * 2 > BACKOFF_MAX then BACKOFF_MAX else backoff * 2
  }

  /** setAutoincreaseEnd: the prolonged end, if there is one in the future. */
  function ProlongedEnd(v: Entry, now: int, a: Answer): (end: Option<int>)
    ensures end.Some? ==> end.value > now
  {
    if !v.autoincrease then None
    else
      var newEnd := if a.conflict.Some? then a.conflict.value - 30 else now + v.autoincreaseTime;
      if newEnd <= now then None else Some(newEnd)
  }

  datatype Outcome = Outcome(accepted: bool, entry: Entry)

  /** activate: whether the next state was accepted, and the entry afterwards. */
  function Activated(v: Entry, now: int, a: Answer): (o: Outcome)
    requires v.state < ENDED
  {
    var backoff := NextBackoff(v.backoff);
    if v.state + 1 == PREPARED then
      if v.justplay || a.prepare.Done? then Outcome(true, v.(backoff := 0))
      else if a.prepare.Refused? then
        Outcome(false, v.(backoff := backoff, startPrepare := now + backoff, firstTryPrepare := false))
      else Outcome(false, v.(firstTryPrepare := false))
    else if v.state + 1 == RUNNING then
      if v.cancelled || v.justplay || a.start == 0 then Outcome(true, v)
      else Outcome(false, v.(backoff := backoff, begin := now + backoff))
    else
      var end := ProlongedEnd(v, now, a);
      if end.Some? then Outcome(true, v.(state := v.state - 1, end := end.value)) else Outcome(true, v)
  }

  /** The part of doActivate that decides the new state. */
  function Advanced(v: Entry, now: int, a: Answer): (u: Entry)
    requires v.state < ENDED
  {
    if Skips(v, now) then v.(state := ENDED)
    else
      var o := Activated(v, now, a);
      if o.accepted then o.entry.(state := o.entry.state + 1) else o.entry
  }

  /**
   What activating v comes to, by its state. Preparing: accepted if it is a zap timer or could be prepared; if it was
   refused it is tried again after the back-off, and if there is nothing to record nothing is put off. Starting:
   accepted if it has been cancelled, is a zap timer, or the recording has started, and else it begins after the
   back-off. Ending: always accepted, but a recording that may be prolonged into the future goes on running. The
   back-off begins with five seconds, and doubles up to a hundred.
   */
  ghost predicate ActivatesTo(v: Entry, u: Entry, accepted: bool, now: int, a: Answer) {
    var b := if v.backoff == 0 then 5 else if v.backoff > 50 then 100 else 2 * v.backoff;
    var end := if a.conflict.Some? then a.conflict.value - 30 else now + v.autoincreaseTime;
    && (v.state == 0 ==>
          && (accepted <==> v.justplay || a.prepare.Done?)
          && u == if accepted then v.(backoff := 0)
                  else if a.prepare.Refused? then v.(backoff := b, startPrepare := now + b, firstTryPrepare := false)
                  else v.(firstTryPrepare := false))
    && (v.state == 1 ==>
          && (accepted <==> v.cancelled || v.justplay || a.start == 0)
          && u == if accepted then v else v.(backoff := b, begin := now + b))
    && (v.state == 2 ==>
          && accepted
          && u == if v.autoincrease && end > now then v.(state := 1, end := end) else v)
  }

  /** What running v comes to: it ends if it is over before it was prepared, and goes on one state if it is accepted. */
  ghost predicate AdvancesTo(v: Entry, u: Entry, now: int, a: Answer) {
    if v.state == 0 && v.end <= now then u == v.(state := 3)
    else
      exists w, accepted {:trigger ActivatesTo(v, w, accepted, now, a)} ::
        ActivatesTo(v, w, accepted, now, a) && u == if accepted then w.(state := w.state + 1) else w
  }

  lemma ActivatedMeans(v: Entry, now: int, a: Answer)
    requires v.state < ENDED
    ensures var o := Activated(v, now, a); ActivatesTo(v, o.entry, o.accepted, now, a)
  {
  }

  lemma AdvancedMeans(v: Entry, now: int, a: Answer)
    requires v.state < ENDED
    ensures AdvancesTo(v, Advanced(v, now, a), now, a)
  {
    ActivatedMeans(v, now, a);
  }

  /** The delays of the tries one after the other. */
  lemma Backoffs()
    ensures NextBackoff(0) == 5 && NextBackoff(5) == 10 && NextBackoff(10) == 20 && NextBackoff(20) == 40
    ensures NextBackoff(40) == 80 && NextBackoff(80) == 100 && NextBackoff(100) == 100
  {
  }

  /**
   A due entry that is refused moves its own next activation into the future, exactly unless there was nothing to
   record.
   */
  lemma RefusalMovesOn(v: Entry, now: int, a: Answer)
    requires EntryOk(v) && v.state < ENDED && KeyOf(v) <= now && !Activated(v, now, a).accepted
    ensures var u := Activated(v, now, a).entry;
      u.state == v.state && u.end == v.end && (KeyOf(u) > now <==> !(v.state == WAITING && a.prepare.Unavailable?))
  {
  }

  /**
   Then it is due as before, and the same answer changes nothing any more: asked again at once, it is asked for ever.
   */
  lemma UnavailableStaysDue(v: Entry, now: int, a: Answer)
    requires EntryOk(v) && v.state == WAITING && !v.justplay && a.prepare.Unavailable?
    requires KeyOf(v) <= now < v.end
    ensures var u := Advanced(v, now, a); KeyOf(u) <= now && u.end > now && Advanced(u, now, a) == u
  {
  }

  /** An accepted entry is one state further, unless a running one has been prolonged into the future. */
  lemma AcceptedIsFurther(v: Entry, now: int, a: Answer)
    requires EntryOk(v) && v.state < ENDED && !Skips(v, now) && Activated(v, now, a).accepted
    ensures var u := Advanced(v, now, a);
      if v.state == RUNNING && ProlongedEnd(v, now, a).Some? then u == v.(end := ProlongedEnd(v, now, a).value)
        && KeyOf(u) > now
      else u.state == v.state + 1 && u.begin == v.begin && u.end == v.end
  {
  }

  /**
   How much an entry can still do at this moment. An entry that is not due does nothing. One that is due moves on
   one state, or refuses and is not due any more; when it ends with its end not past now, it stays ended unless it
   is repeated, and then its end lies in the future and it cannot end again.
   */
  function Rank(v: Entry, now: int): (n: nat) {
    if KeyOf(v) > now || v.state < 0 || v.state >= ENDED then 0
    else (4 - v.state) + (if v.end <= now then 8 else 0)
  }

  /** A finished entry that a clock set back brings to life again. */
  predicate Revivable(v: Entry, now: int) {
    !v.disabled && (v.repeated != 0 || v.end > now)
  }

  /** What an entry can add when it is added to the scheduler. */
  function Cap(v: Entry, now: int): (n: nat) {
    if v.state == WAITING && !Revivable(v, now) then 0
    else if v.repeated != 0 || v.end > now then 4
    else 12
  }

  /** A due entry ends, or it has less left to do. */
  lemma AdvancedDoesLess(v: Entry, now: int, a: Answer)
    requires EntryOk(v) && v.state < ENDED && KeyOf(v) <= now && !a.prepare.Unavailable?
    ensures var u := Advanced(v, now, a);
      && EntryOk(u) && u.repeated == v.repeated && u.disabled == v.disabled
      && (u.state < ENDED ==> Rank(u, now) < Rank(v, now))
      && (u.state == ENDED ==> u.end <= now && Rank(v, now) >= 9)
  {
  }

  // ---------------------------------------------------------------- entries that are to go

  /** An entry that can only end: aborted, and neither repeated nor prolonged. */
  predicate Doomed(v: Entry, now: int) {
    && v.repeated == 0 && !v.autoincrease
    && v.begin <= now && v.end <= now && (v.startPrepare <= now || v.state == ENDED)
    && (v.cancelled || v.state == WAITING || v.state == ENDED)
  }

  /** It is due in every state, stays doomed, and is in a later state after each activation. */
  lemma DoomedStaysDoomed(v: Entry, now: int, a: Answer)
    requires Doomed(v, now) && EntryOk(v)
    ensures KeyOf(v) <= now
    ensures v.state < ENDED ==> Doomed(Advanced(v, now, a), now) && Advanced(v, now, a).state > v.state
  {
  }

  /** Aborted, and neither repeated nor prolonged any more. */
  function Aborted(v: Entry, now: int): (u: Entry) {
    v.(repeated := 0, autoincrease := false,
       begin := if v.begin > now then now else v.begin, end := now, cancelled := true)
  }

  /** An edited entry gets another chance: a finished one waits again. */
  function Changed(v: Entry): (u: Entry) {
    v.(startPrepare := v.begin - PREPARE_TIME, backoff := 0, state := if v.state == ENDED then WAITING else v.state)
  }

  /** It goes exactly if it is prepared or running already, or is not disabled and will repeat or end in the future. */
  lemma ChangedGoes(v: Entry, now: int)
    ensures Goes(Changed(v), now) <==>
      v.state == 1 || v.state == 2 || (!v.disabled && (v.repeated != 0 || v.end > now))
      || (v.state != 0 && v.state != 3)
  {
  }

  /** An aborted entry is doomed once its preparation time follows from its begin, or it has ended. */
  lemma AbortedIsDoomed(v: Entry, now: int)
    ensures Doomed(Changed(Aborted(v, now)), now)
    ensures v.state == ENDED ==> Doomed(Aborted(v, now), now)
  {
  }

  // ---------------------------------------------------------------- what the scheduler may do to an entry

  /** addTimerEntry without the recalculation: moved to its day, and ended if it does not go. */
  ghost predicate Placed(v: Entry, u: Entry, zone: int, now: int) {
    EntryOk(v) && Moved(v, u.(state := v.state), zone, now, true) && u.state == if Goes(v, now) then v.state else ENDED
  }

  /**
   What is left of an entry that has been run: as it is, or moved to its next day and placed again if it has ended
   and repeats.
   */
  ghost predicate Again(v: Entry, u: Entry, zone: int, now: int) {
    if v.state < ENDED || v.repeated == 0 then u == v
    else
      EntryOk(v) && exists x: Entry {:trigger Placed(x, u, zone, now)} ::
        Moved(v, x.(state := v.state), zone, now, true) && x.state == WAITING && Placed(x, u, zone, now)
  }

  /** One activation of a due entry. Answers that move nothing are ruled out. */
  ghost predicate Runs(v: Entry, u: Entry, zone: int, now: int) {
    && EntryOk(v) && v.state < ENDED && KeyOf(v) <= now
    && exists a: Answer {:trigger Advanced(v, now, a)} ::
         !a.prepare.Unavailable? && Again(Advanced(v, now, a), u, zone, now)
  }

  /** A finished entry as resetState leaves it. */
  function Restarted(v: Entry): (u: Entry) {
    v.(state := WAITING, cancelled := false, firstTryPrepare := true, startPrepare := v.begin - PREPARE_TIME,
      backoff := 0)
  }

  /** One more chance for a finished entry. */
  ghost predicate Revives(v: Entry, u: Entry, zone: int, now: int) {
    v.state == ENDED && Placed(Restarted(v), u, zone, now)
  }

  /** An activation; or a revival, after the clock was set back. */
  ghost predicate Step(v: Entry, u: Entry, zone: int, now: int, setBack: bool) {
    Runs(v, u, zone, now) || (setBack && Revives(v, u, zone, now))
  }

  /** n steps lead from v to u. */
  ghost predicate EvolvesIn(v: Entry, u: Entry, zone: int, now: int, setBack: bool, n: nat)
    decreases n
  {
    if n == 0 then u == v
    else
      exists w {:trigger EvolvesIn(w, u, zone, now, setBack, n - 1)} ::
        Step(v, w, zone, now, setBack) && EvolvesIn(w, u, zone, now, setBack, n - 1)
  }

  /**
   The scheduler may take an entry from v to u: by activations, and revivals if the clock was set back, and nothing
   else.
   */
  ghost predicate Evolves(v: Entry, u: Entry, zone: int, now: int, setBack: bool) {
    exists n: nat :: EvolvesIn(v, u, zone, now, setBack, n)
  }

  lemma {:induction false} StepsJoin(v: Entry, u: Entry, w: Entry, zone: int, now: int, b: bool, c: bool, m: nat,
      n: nat)
    requires EvolvesIn(v, u, zone, now, b, m) && EvolvesIn(u, w, zone, now, c, n) && (c ==> b)
    ensures EvolvesIn(v, w, zone, now, b, m + n)
    decreases m + n
  {
    hide Runs, Revives;
    if m > 0 {
      var x :| Step(v, x, zone, now, b) && EvolvesIn(x, u, zone, now, b, m - 1);
      StepsJoin(x, u, w, zone, now, b, c, m - 1, n);
    } else if n > 0 {
      var x :| Step(u, x, zone, now, c) && EvolvesIn(x, w, zone, now, c, n - 1);
      assert EvolvesIn(x, x, zone, now, b, 0);
      StepsJoin(x, x, w, zone, now, b, c, 0, n - 1);
      assert Step(v, x, zone, now, b) && EvolvesIn(x, w, zone, now, b, m + n - 1);
    }
  }

  /** One after the other, two such courses are one. */
  lemma EvolvesJoins(zone: int, now: int)
    ensures forall v, b {:trigger Evolves(v, v, zone, now, b)} :: Evolves(v, v, zone, now, b)
    ensures forall v, u, w, b, c {:trigger Evolves(v, u, zone, now, b), Evolves(u, w, zone, now, c)} ::
      Evolves(v, u, zone, now, b) && Evolves(u, w, zone, now, c) && (c ==> b) ==> Evolves(v, w, zone, now, b)
  {
    forall v, b ensures Evolves(v, v, zone, now, b) {
      assert EvolvesIn(v, v, zone, now, b, 0);
    }
    forall v, u, w, b, c | Evolves(v, u, zone, now, b) && Evolves(u, w, zone, now, c) && (c ==> b)
      ensures Evolves(v, w, zone, now, b)
    {
      var m: nat :| EvolvesIn(v, u, zone, now, b, m);
      var n: nat :| EvolvesIn(u, w, zone, now, c, n);
      StepsJoin(v, u, w, zone, now, b, c, m, n);
    }
  }

  lemma OneStep(v: Entry, u: Entry, zone: int, now: int, setBack: bool)
    requires Step(v, u, zone, now, setBack)
    ensures Evolves(v, u, zone, now, setBack)
  {
    assert EvolvesIn(u, u, zone, now, setBack, 0);
    assert EvolvesIn(v, u, zone, now, setBack, 1);
  }

  /** v has been run, and goes its way from there. */
  ghost predicate GoesOn(v: Entry, u: Entry, zone: int, now: int, setBack: bool) {
    exists m {:trigger Again(v, m, zone, now)} :: Again(v, m, zone, now) && Evolves(m, u, zone, now, setBack)
  }

  /** v is added, and goes its way from there. */
  ghost predicate Enters(v: Entry, u: Entry, zone: int, now: int, setBack: bool) {
    exists m {:trigger Placed(v, m, zone, now)} :: Placed(v, m, zone, now) && Evolves(m, u, zone, now, setBack)
  }

  lemma RunEvolves(v: Entry, u: Entry, a: Answer, zone: int, now: int, setBack: bool)
    requires EntryOk(v) && v.state < ENDED && KeyOf(v) <= now && !a.prepare.Unavailable?
    requires GoesOn(Advanced(v, now, a), u, zone, now, setBack)
    ensures Evolves(v, u, zone, now, setBack)
  {
    var m :| Again(Advanced(v, now, a), m, zone, now) && Evolves(m, u, zone, now, setBack);
    assert Runs(v, m, zone, now);
    OneStep(v, m, zone, now, setBack);
    EvolvesJoins(zone, now);
  }

  lemma AddedGoesOn(v: Entry, x: Entry, u: Entry, zone: int, now: int, setBack: bool)
    requires EntryOk(v) && v.state == ENDED && v.repeated != 0 && x.state == WAITING
    requires Moved(v, x.(state := v.state), zone, now, true) && Enters(x, u, zone, now, setBack)
    ensures GoesOn(v, u, zone, now, setBack)
  {
    var m :| Placed(x, m, zone, now) && Evolves(m, u, zone, now, setBack);
    assert Again(v, m, zone, now);
  }

  /**
   An entry that is not due stays as it is, a finished one too unless the clock was set back, and a doomed one stays
   doomed.
   */
  lemma {:induction false} StepsMean(v: Entry, u: Entry, zone: int, now: int, setBack: bool, n: nat)
    requires EvolvesIn(v, u, zone, now, setBack, n)
    ensures Resting(v, now) || (v.state == ENDED && !setBack) ==> u == v
    ensures Doomed(v, now) ==> Doomed(u, now)
    decreases n
  {
    hide Advanced, Activated, Later, IsOffset;
    if n > 0 {
      var w :| Step(v, w, zone, now, setBack) && EvolvesIn(w, u, zone, now, setBack, n - 1);
      StepsMean(w, u, zone, now, setBack, n - 1);
      if Runs(v, w, zone, now) && Doomed(v, now) {
        var a: Answer :| !a.prepare.Unavailable? && Again(Advanced(v, now, a), w, zone, now);
        DoomedStaysDoomed(v, now, a);
      }
    }
  }

  lemma EvolvesMeans(v: Entry, u: Entry, zone: int, now: int, setBack: bool)
    requires Evolves(v, u, zone, now, setBack)
    ensures Resting(v, now) || (v.state == ENDED && !setBack) ==> u == v
    ensures Doomed(v, now) ==> Doomed(u, now)
  {
    var n: nat :| EvolvesIn(v, u, zone, now, setBack, n);
    StepsMean(v, u, zone, now, setBack, n);
  }

  lemma EntersDoomed(v: Entry, u: Entry, zone: int, now: int, setBack: bool)
    requires Enters(v, u, zone, now, setBack) && Doomed(v, now)
    ensures Doomed(u, now)
  {
    var m :| Placed(v, m, zone, now) && Evolves(m, u, zone, now, setBack);
    EvolvesMeans(m, u, zone, now, setBack);
  }

  /** What a clock set back does to an entry: a finished one waits again if it can come back to life. */
  ghost predicate Revived(v: Entry, u: Entry, zone: int, now: int) {
    if v.state == ENDED then Revives(v, u, zone, now) && u.state == (if Revivable(v, now) then WAITING else ENDED)
    else u == v
  }

  /** A finished entry waits again, anew, exactly if it is not disabled and repeats or ends in the future. */
  lemma RevivedMeans(v: Entry, u: Entry, zone: int, now: int)
    requires Revived(v, u, zone, now)
    ensures v.state != 3 ==> u == v
    ensures v.state == 3 ==> u.state == if !v.disabled && (v.repeated != 0 || v.end > now) then 0 else 3
    ensures v.state == 3 ==> !u.cancelled && u.firstTryPrepare && u.backoff == 0 && u.startPrepare == u.begin - 20
    ensures v.state == 3 && v.repeated == 0 ==> u.begin == v.begin && u.end == v.end
  {
  }

  lemma RevivedEvolves(zone: int, now: int)
    ensures forall v, u {:trigger Revived(v, u, zone, now)} :: Revived(v, u, zone, now) ==>
      Evolves(v, u, zone, now, true)
  {
    forall v, u | Revived(v, u, zone, now) ensures Evolves(v, u, zone, now, true) {
      EvolvesJoins(zone, now);
      if v.state == ENDED {
        OneStep(v, u, zone, now, true);
      }
    }
  }

  // ---------------------------------------------------------------- the class

  class TimerEntry {
    var begin: int
    var end: int
    var state: int
    var repeated: int
    var repeatedBegin: int
    var startPrepare: int
    var backoff: int
    var disabled: bool
    var cancelled: bool
    var firstTryPrepare: bool
    var autoincrease: bool
    const justplay: bool
    const autoincreaseTime: int

    function View(): (v: Entry)
      reads this
    {
      Entry(begin, end, state, repeated, repeatedBegin, startPrepare, backoff, disabled, cancelled, firstTryPrepare,
        autoincrease, justplay, autoincreaseTime)
    }

    constructor (begin: int, end: int, justplay: bool)
      ensures EntryOk(View())
      ensures View() == Entry(begin, if end < begin then begin else end, WAITING, 0, begin, begin - PREPARE_TIME, 0,
                              false, false, true, false, justplay, 3600 * 24)
    {
      this.begin := begin;
      this.end := if end < begin then begin else end;
      state, repeated, repeatedBegin := WAITING, 0, begin;
      startPrepare, backoff := begin - PREPARE_TIME, 0;
      disabled, cancelled, firstTryPrepare, autoincrease := false, false, true, false;
      this.justplay, this.autoincreaseTime := justplay, 3600 * 24;
    }

    ghost predicate Ok()
      reads this
      ensures Ok() == EntryOk(View())
    {
      0 <= state <= ENDED && backoff >= 0 && (repeated == 0 || HasDay(repeated))
    }

    /** getNextActivation */
    function Key(): (t: int)
      reads this
      ensures t == KeyOf(View())
      ensures state == 0 ==> t == startPrepare
      ensures state == 1 ==> t == begin
      ensures state == 2 || state == 3 ==> t == end
    {
      if state == ENDED then end
      else if state + 1 == PREPARED then startPrepare
      else if state + 1 == RUNNING then begin
      else end
    }

    method TimeChanged()
      modifies this`startPrepare, this`backoff
      ensures View() == old(View()).(startPrepare := begin - PREPARE_TIME, backoff := 0)
    {
      startPrepare := begin - PREPARE_TIME;
      backoff := 0;
    }

    method ResetState()
      modifies this`state, this`cancelled, this`firstTryPrepare, this`startPrepare, this`backoff
      ensures View() == Restarted(old(View()))
    {
      state := WAITING;
      cancelled := false;
      firstTryPrepare := true;
      TimeChanged();
    }

    /** End now, and do not begin after that. */
    method Abort(now: int)
      modifies this`begin, this`end, this`cancelled
      ensures repeated == 0 && !autoincrease ==> View() == Aborted(old(View()), now)
      ensures View() == old(View()).(
        begin := if old(begin) > now then now else old(begin), end := now, cancelled := true)
    {
      end := now;
      if begin > end {
        begin := end;
      }
      cancelled := true;
    }

    /** The loop of processRepeated: day by day, until nothing makes the timer move on. */
    static method FirstDayThatFits(r: Repeat) returns (localBegin: int, localEnd: int, ghost k: nat)
      requires HasDay(r.mask)
      ensures IsOffset(r, k) && localBegin == r.begin + k * DAY && localEnd == r.end + k * DAY
    {
      ghost var last := SomeDayFits(r);
      localBegin, localEnd, k := r.begin, r.end, 0;
      var moved := false;
      while MustMove(r, localBegin, localEnd, moved)
        invariant 0 <= k <= last && localBegin == r.begin + k * DAY && localEnd == r.end + k * DAY && (moved <==> k > 0)
        invariant forall j: nat :: j < k ==> MoveOn(r, j)
        decreases last - k
      {
        localBegin, localEnd := localBegin + DAY, localEnd + DAY;
        moved, k := true, k + 1;
      }
      assert !MoveOn(r, k);
    }

    /** Move to the first day that fits, and widen an empty interval by one second. */
    method ProcessRepeated(zone: int, now: int, findRunning: bool)
      requires EntryOk(View())
      modifies this`begin, this`end, this`startPrepare, this`backoff
      ensures Moved(old(View()), View(), zone, now, findRunning)
      ensures if old(repeated) == 0 then View() == old(View())
        else exists k: nat :: LandsOn(old(View()), View(), k, zone, now, findRunning)
    {
      hide IsOffset, LandsOn, Moved, HasDay, Selected;
      StaysAsIs(View(), zone, now, findRunning);
      if repeated != 0 {
        ghost var v := View();
        ghost var k;
        begin, end, k := FirstDayThatFits(RepeatOf(View(), zone, now, findRunning));
        if begin == end {
          end := end + 1;
        }
        TimeChanged();
        assert View() == Later(v, k);
        MovedBy(v, k, zone, now, findRunning);
      }
    }

    // -------------------------------------------------------------- RecordTimerEntry

    method DoBackoff()
      modifies this`backoff
      ensures View() == old(View()).(backoff := NextBackoff(old(backoff)))
    {
      if backoff == 0 {
        backoff := BACKOFF_MIN;
      } else {
        backoff := backoff * 2;
        if backoff > BACKOFF_MAX {
          backoff := BACKOFF_MAX;
        }
      }
    }

    /**
     Prepare the record service. If it refuses, the preparation is tried again later; if there is none, nothing
     moves.
     */
    method TryPrepare(now: int, prepare: Prepare) returns (ok: bool)
      modifies this`startPrepare, this`backoff
      ensures ok == (justplay || prepare.Done?)
      ensures View() == if !justplay && prepare.Refused?
        then old(View()).(backoff := NextBackoff(old(backoff)), startPrepare := now + NextBackoff(old(backoff)))
        else old(View())
    {
      if justplay {
        return true;
      }
      if prepare.Unavailable? {
        return false;
      }
      if prepare.Refused? {
        DoBackoff();
        startPrepare := now + backoff;
        return false;
      }
      return true;
    }

    /** A running recording may be prolonged, as far as the next conflicting timer allows. */
    method SetAutoincreaseEnd(now: int, a: Answer) returns (ok: bool)
      modifies this`end
      ensures ok == ProlongedEnd(old(View()), now, a).Some?
      ensures View() == if ok then old(View()).(end := ProlongedEnd(old(View()), now, a).value) else old(View())
      ensures !ok ==> unchanged(this)
    {
      if !autoincrease {
        return false;
      }
      var newEnd := now + autoincreaseTime;
      if a.conflict.Some? {
        newEnd := a.conflict.value;
        newEnd := newEnd - 30;
      }
      if newEnd <= now {
        return false;
      }
      end := newEnd;
      return true;
    }

    /** activate: go into the next state, or refuse. */
    method Activate(now: int, a: Answer) returns (accepted: bool)
      requires state < ENDED
      modifies this
      ensures Outcome(accepted, View()) == Activated(old(View()), now, a)
      ensures ActivatesTo(old(View()), View(), accepted, now, a)
    {
      hide ActivatesTo;
      ActivatedMeans(View(), now, a);
      var nextState := state + 1;
      if nextState == PREPARED {
        var ok := TryPrepare(now, a.prepare);
        if ok {
          backoff := 0;
          return true;
        }
        if firstTryPrepare {
          firstTryPrepare := false;
        }
        return false;
      } else if nextState == RUNNING {
        if cancelled {
          return true;
        }
        if justplay {
          return true;
        }
        if a.start != 0 {
          DoBackoff();
          begin := now + backoff;
          return false;
        }
        return true;
      } else {
        var putOff := SetAutoincreaseEnd(now, a);
        if putOff {
          state := state - 1;
        }
        return true;
      }
    }

    /** The part of doActivate that skips or activates the entry. */
    method Advance(now: int, a: Answer)
      requires state < ENDED
      modifies this
      ensures View() == Advanced(old(View()), now, a) && AdvancesTo(old(View()), View(), now, a)
    {
      hide AdvancesTo, ActivatesTo;
      AdvancedMeans(View(), now, a);
      if end <= now && state == WAITING {
        state := ENDED;
      } else {
        var accepted := Activate(now, a);
        if accepted {
          state := state + 1;
        }
      }
    }
  }
}
