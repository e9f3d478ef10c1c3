/**
 The start/stop protocol of a thread object: one controller calls its methods,
 the worker thread runs the body and the completion handler. Every read or
 write of the semaphore, of the two flags and of the thread handle is one
 atomic step, and the steps of controller and worker interleave in any way.
 The body may announce itself once, and may end (or be cancelled) at any point
 outside hasStarted.
 */
module Threads {

  datatype Op = SyncOp | StartOp(wait: bool) | KillOp

  /** Who called sync. */
  datatype Caller = Outside | InRunAsync(wait: bool) | InRun | InKill

  /** The controller: between calls, or about to take step k of a method. */
  datatype Control = Idle | Syncing(k: nat, res: bool, caller: Caller) | Starting(k: nat, wait: bool) | Joining

  /**
   The worker: Announcing is hasStarted, called by the body or by the completion handler; Completing is the
   completion handler.
   */
  datatype Worker = NoWorker | Body | Announcing(k: nat, completed: bool) | Running | Completing(k: nat) | Exited

  /** What the last call has returned. */
  datatype Returned = Nothing | SyncReturned(alive: bool) | StartReturned(wait: bool, ok: bool)

  datatype State = State(
    value: int,
    alive: bool,
    started: bool,
    handle: bool,
    worker: Worker,
    control: Control,
    todo: seq<Op>,
    last: Returned,
    failed: bool)

  /** A controller step, or a worker step; in the body the worker may announce itself or end. */
  datatype Action = Controller | WorkerGoes | WorkerAnnounces

  function Init(todo: seq<Op>): (s: State) {
    State(1, false, false, false, NoWorker, Idle, todo, Nothing, false)
  }

  /** The caller of sync goes on. */
  function AfterSync(s: State, res: bool, caller: Caller): (t: State) {
    match caller
    case Outside => s.(control := Idle, last := SyncReturned(res))
    case InRunAsync(wait) => if res then s.(control := Idle, last := StartReturned(wait, false))
      else s.(control := Starting(0, wait))
    case InRun => s.(control := Idle, last := StartReturned(true, true))
    case InKill => s.(control := Joining)
  }

  function SyncStep(s: State, k: nat, res: bool, caller: Caller): (t: State) {
    if k == 0 then
      if s.value <= 0 then s else s.(value := s.value - 1, control := Syncing(1, res, caller))
    else if k == 1 then s.(control := Syncing(2, s.alive, caller))
    else if k == 2 || k == 3 then
      if s.value != 0 then s.(failed := true) else s.(control := Syncing(k + 1, res, caller))
    else AfterSync(s.(value := s.value + 1), res, caller)
  }

  function StartStep(s: State, k: nat, wait: bool): (t: State) {
    if k == 0 then
      if s.value != 1 then s.(failed := true) else s.(control := Starting(1, wait))
    else if k == 1 then
      if s.alive then s.(failed := true) else s.(control := Starting(2, wait))
    else if k == 2 then
      if s.value <= 0 then s else s.(value := s.value - 1, control := Starting(3, wait))
    else if k == 3 then
      if s.value != 0 then s.(failed := true) else s.(control := Starting(4, wait))
    else if k == 4 then s.(alive := true, control := Starting(5, wait))
    else if k == 5 then s.(started := false, control := Starting(6, wait))
    else if k == 6 then
      if !s.handle then s.(control := Starting(7, wait))
      else if s.worker != Exited then s
      else s.(handle := false, worker := NoWorker, control := Starting(7, wait))
    else
      var t := s.(handle := true, worker := Body);
      if wait then t.(control := Syncing(0, false, InRun))
      else t.(control := Idle, last := StartReturned(false, true))
  }

  function ControllerStep(s: State): (t: State) {
    match s.control
    case Idle =>
      if s.todo == [] then s
      else
        var u := s.(todo := s.todo[1..], last := Nothing);
        (match s.todo[0]
         case SyncOp => u.(control := Syncing(0, false, Outside))
         case StartOp(wait) => u.(control := Syncing(0, false, InRunAsync(wait)))
         case KillOp => if s.handle then u.(control := Syncing(0, false, InKill)) else u)
    case Syncing(k, res, caller) => SyncStep(s, k, res, caller)
    case Starting(k, wait) => StartStep(s, k, wait)
    case Joining => if s.worker != Exited then s else s.(handle := false, worker := NoWorker, control := Idle)
  }

  function WorkerStep(s: State, announce: bool): (t: State) {
    match s.worker
    case NoWorker => s
    case Body => s.(worker := if announce then Announcing(0, false) else Completing(0))
    case Announcing(k, completed) =>
      if k == 0 then
        if s.value != 0 then s.(failed := true) else s.(worker := Announcing(1, completed))
      else if k == 1 then s.(started := true, worker := Announcing(2, completed))
      else s.(value := s.value + 1, worker := if completed then Exited else Running)
    case Running => s.(worker := Completing(0))
    case Completing(k) =>
      if k == 0 then s.(alive := false, worker := Completing(1))
      else s.(worker := if s.started then Exited else Announcing(0, true))
    case Exited => s
  }

  /** One step; a step that is blocked changes nothing, and nothing happens after a failed assertion. */
  function Step(s: State, a: Action): (t: State) {
    if s.failed then s
    else match a
      case Controller => ControllerStep(s)
      case WorkerGoes => WorkerStep(s, false)
      case WorkerAnnounces => WorkerStep(s, true)
  }

  function Exec(s: State, actions: seq<Action>): (t: State)
    decreases |actions|
  {
    if actions == [] then s else Exec(Step(s, actions[0]), actions[1..])
  }

  /** No assertion and no fatal check has fired, and the semaphore is 0 or 1. */
  predicate Safe(s: State) {
    !s.failed && 0 <= s.value <= 1
  }

  /** The controller joins the old thread with kill before every further start. */
  predicate Disciplined(todo: seq<Op>, joined: bool) {
    if todo == [] then true
    else match todo[0]
      case SyncOp => Disciplined(todo[1..], joined)
      case StartOp(_) => joined && Disciplined(todo[1..], false)
      case KillOp => Disciplined(todo[1..], true)
  }

  // ---------------------------------------------------------------- disciplined programs are safe

  predicate BodyRuns(w: Worker) {
    w == Body || w == Running || (w.Announcing? && !w.completed)
  }

  /** The controller has taken the semaphore and not given it back yet. */
  function Held(c: Control): (n: int) {
    match c
    case Idle => 0
    case Syncing(k, _, _) => if k >= 1 then 1 else 0
    case Starting(k, _) => if k >= 3 then 1 else 0
    case Joining => 0
  }

  /** The worker still has to raise the semaphore. */
  function Pending(w: Worker, started: bool): (n: int) {
    match w
    case NoWorker => 0
    case Body => 1
    case Announcing(_, _) => 1
    case Running => 0
    case Completing(_) => if started then 0 else 1
    case Exited => 0
  }

  /** The thread will have been joined when the current call returns. */
  predicate JoinedAfter(s: State) {
    match s.control
    case Idle => !s.handle
    case Syncing(_, _, caller) => if caller.Outside? then !s.handle else caller.InKill?
    case Starting(_, _) => false
    case Joining => true
  }

  predicate WorkerOk(s: State) {
    && (s.handle <==> s.worker != NoWorker)
    && (match s.worker
        case NoWorker => s.alive <==> s.control.Starting? && s.control.k >= 5
        case Body => s.alive && !s.started
        case Announcing(k, completed) => k <= 2 && (s.alive <==> !completed) && (s.started <==> k == 2)
        case Running => s.alive && s.started
        case Completing(k) => k <= 1 && (s.alive <==> k == 0)
        case Exited => !s.alive)
  }

  predicate ControlOk(s: State) {
    match s.control
    case Idle =>
      && (s.last == SyncReturned(false) ==> !BodyRuns(s.worker))
      && (s.last == SyncReturned(true) ==> s.handle)
      && (s.last.StartReturned? ==> s.last.ok && s.handle)
      && (s.last == StartReturned(true, true) ==> Pending(s.worker, s.started) == 0)
    case Syncing(k, res, caller) =>
      && k <= 4
      && (k >= 2 && !res ==> !BodyRuns(s.worker))
      && (k >= 2 && res ==> s.handle)
      && (caller.InRunAsync? ==> s.worker == NoWorker)
      && (k >= 2 && caller.InRunAsync? ==> !res)
      && (caller.InRun? || caller.InKill? ==> s.handle)
    case Starting(k, _) => k <= 7 && s.worker == NoWorker && (k >= 6 ==> !s.started)
    case Joining => s.handle
  }

  /** There is one token: it is in the semaphore, with the controller, or owed by the worker. */
  predicate Inv(s: State) {
    && !s.failed
    && s.value >= 0 && s.value + Held(s.control) + Pending(s.worker, s.started) == 1
    && WorkerOk(s) && ControlOk(s) && (s.control != Idle ==> s.last == Nothing)
    && Disciplined(s.todo, JoinedAfter(s))
  }

  lemma SyncReturnKeepsInv(s: State)
    requires Inv(s) && s.control.Syncing? && s.control.k == 4
    ensures Inv(ControllerStep(s))
  {
    match s.control.caller
    case Outside =>
    case InRunAsync(wait) =>
    case InRun =>
    case InKill =>
  }

  lemma SyncKeepsInv(s: State)
    requires Inv(s) && s.control.Syncing?
    ensures Inv(ControllerStep(s))
  {
    if s.control.k == 4 {
      SyncReturnKeepsInv(s);
    } else if s.control.k == 0 {
    } else if s.control.k == 1 {
    }
  }

  lemma StartKeepsInv(s: State)
    requires Inv(s) && s.control.Starting?
    ensures Inv(ControllerStep(s))
  {
  }

  lemma ControllerKeepsInv(s: State)
    requires Inv(s)
    ensures Inv(ControllerStep(s))
  {
    if s.control.Syncing? {
      SyncKeepsInv(s);
    } else if s.control.Starting? {
      StartKeepsInv(s);
    }
  }

  lemma WorkerKeepsInv(s: State, announce: bool)
    requires Inv(s)
    ensures Inv(WorkerStep(s, announce))
  {
  }

  lemma {:induction false} RunsKeepInv(s: State, actions: seq<Action>)
    requires Inv(s)
    ensures Inv(Exec(s, actions))
    decreases |actions|
  {
    if actions != [] {
      ControllerKeepsInv(s);
      WorkerKeepsInv(s, false);
      WorkerKeepsInv(s, true);
      RunsKeepInv(Step(s, actions[0]), actions[1..]);
    }
  }

  /**
   In every interleaving of a disciplined program: no check fails and the semaphore stays in {0, 1}; when sync has
   returned 0 no body runs, and when it has returned 1 there is a thread that has not been joined; a start succeeds,
   and there is a thread then; when run has returned 0 the worker has announced itself or completed.
   */
  lemma DisciplinedIsSafe(todo: seq<Op>, actions: seq<Action>)
    requires Disciplined(todo, true)
    ensures var s := Exec(Init(todo), actions);
            && Safe(s)
            && (s.control == Idle && s.last == SyncReturned(false) ==> !BodyRuns(s.worker))
            && (s.control == Idle && s.last == SyncReturned(true) ==> s.worker != NoWorker)
            && (s.control == Idle && s.last.StartReturned? ==> s.last.ok && s.worker != NoWorker)
            && (s.control == Idle && s.last == StartReturned(true, true) ==>
                  s.worker == Running || s.worker == Exited || (s.worker.Completing? && s.started))
  {
    RunsKeepInv(Init(todo), actions);
  }

  /** The handle belongs to the one thread there is, and runAsync creates a thread only when there is none. */
  predicate OneThread(s: State) {
    (s.handle <==> s.worker != NoWorker) && (s.control.Starting? && s.control.k >= 7 ==> !s.handle)
  }

  lemma StepsKeepOneThread(s: State)
    requires OneThread(s)
    ensures OneThread(ControllerStep(s)) && forall announce :: OneThread(WorkerStep(s, announce))
  {
    hide SyncStep, StartStep, WorkerStep;
    if s.control.Syncing? {
      SyncKeepsThread(s);
    }
    if s.control.Starting? {
      StartKeepsThread(s);
    }
    WorkerKeepsThread(s);
  }

  lemma SyncKeepsThread(s: State)
    requires s.control.Syncing?
    ensures var t := SyncStep(s, s.control.k, s.control.res, s.control.caller);
      t.handle == s.handle && t.worker == s.worker && (t.control.Starting? ==> t.control.k == 0)
  {
  }

  lemma StartKeepsThread(s: State)
    requires s.control.Starting? && OneThread(s)
    ensures OneThread(StartStep(s, s.control.k, s.control.wait))
  {
  }

  lemma WorkerKeepsThread(s: State)
    ensures forall announce {:trigger WorkerStep(s, announce)} ::
      var t := WorkerStep(s, announce);
      t.handle == s.handle && t.control == s.control && (t.worker == NoWorker <==> s.worker == NoWorker)
  {
  }

  lemma {:induction false} RunsKeepOneThread(s: State, actions: seq<Action>)
    requires OneThread(s)
    ensures OneThread(Exec(s, actions))
    decreases |actions|
  {
    hide ControllerStep, WorkerStep;
    if actions != [] {
      StepsKeepOneThread(s);
      RunsKeepOneThread(Step(s, actions[0]), actions[1..]);
    }
  }

  /**
   Whatever the program, disciplined or not: where runAsync creates a thread, there is no other. So at most one body
   ever runs.
   */
  lemma AtMostOneBody(todo: seq<Op>, actions: seq<Action>)
    ensures var s := Exec(Init(todo), actions);
      s.control.Starting? && s.control.k >= 7 ==> s.worker == NoWorker
  {
    RunsKeepOneThread(Init(todo), actions);
  }

  // ---------------------------------------------------------------- no deadlock

  /** Some step changes the state. */
  predicate CanMove(s: State) {
    Step(s, Controller) != s || Step(s, WorkerGoes) != s
  }

  /** A call never waits for ever on a worker that cannot move. */
  lemma CallsAreNotStuck(s: State)
    requires Inv(s) && s.control != Idle
    ensures CanMove(s)
  {
  }

  // ---------------------------------------------------------------- undisciplined programs are not

  lemma {:induction false} ExecAppend(s: State, a: seq<Action>, b: seq<Action>)
    ensures Exec(s, a + b) == Exec(Exec(s, a), b)
    decreases |a|
  {
    if a == [] {
      assert a + b == b;
    } else {
      assert (a + b)[0] == a[0] && (a + b)[1..] == a[1..] + b;
      ExecAppend(Step(s, a[0]), a[1..], b);
    }
  }

  /** t can be reached from s. */
  ghost predicate Reaches(s: State, t: State) {
    exists actions :: Exec(s, actions) == t
  }

  lemma ReachesStep(s: State, t: State, a: Action)
    requires Reaches(s, t)
    ensures Reaches(s, Step(t, a))
  {
    var actions :| Exec(s, actions) == t;
    ExecAppend(s, actions, [a]);
    assert Exec(t, [a]) == Exec(Step(t, a), []) == Step(t, a);
    assert Exec(s, actions + [a]) == Step(t, a);
  }

  /** Nothing is going on: the thread is joined, or its body runs and has announced itself. */
  function Resting(handle: bool, started: bool, todo: seq<Op>, last: Returned): (s: State) {
    if handle then State(1, true, true, true, Running, Idle, todo, last, false)
    else State(1, false, started, false, NoWorker, Idle, todo, last, false)
  }

  /** sync of a resting thread returns at once. */
  lemma RestingSync(s: State, t: State, caller: Caller) returns (u: State)
    requires Reaches(s, t) && !t.failed && t.value == 1 && t.control == Syncing(0, false, caller)
    ensures Reaches(s, u) && u == AfterSync(t, t.alive, caller)
  {
    u := t;
    u := NextStep(s, u, Controller);
    u := NextStep(s, u, Controller);
    assert u == t.(value := 0, control := Syncing(2, t.alive, caller));
    u := NextStep(s, u, Controller);
    u := NextStep(s, u, Controller);
    u := NextStep(s, u, Controller);
  }

  lemma NextStep(s: State, t: State, a: Action) returns (u: State)
    requires Reaches(s, t)
    ensures Reaches(s, u) && u == Step(t, a)
  {
    ReachesStep(s, t, a);
    u := Step(t, a);
  }

  /** From the first check of runAsync to the point where m_started has been reset. */
  lemma StartUpToReset(s: State, t: State, wait: bool) returns (u: State)
    requires Reaches(s, t) && !t.failed && t.value == 1 && !t.alive && t.control == Starting(0, wait)
    ensures Reaches(s, u) && u == t.(value := 0, alive := true, started := false, control := Starting(6, wait))
  {
    u := NextStep(s, t, Controller);
    u := NextStep(s, u, Controller);
    u := NextStep(s, u, Controller);
    assert u == t.(value := 0, control := Starting(3, wait));
    u := NextStep(s, u, Controller);
    u := NextStep(s, u, Controller);
    u := NextStep(s, u, Controller);
  }

  /** A fresh worker announces itself. */
  lemma Announce(s: State, t: State) returns (u: State)
    requires Reaches(s, t) && !t.failed && t.worker == Body && t.value == 0
    ensures Reaches(s, u) && u == t.(value := 1, started := true, worker := Running)
  {
    u := NextStep(s, t, WorkerAnnounces);
    u := NextStep(s, u, WorkerGoes);
    u := NextStep(s, u, WorkerGoes);
    u := NextStep(s, u, WorkerGoes);
  }

  /** One disciplined call takes a resting state to a resting state. */
  lemma CallFromRest(s: State, t: State) returns (u: State)
    requires Reaches(s, t) && t.todo != [] && t == Resting(t.handle, t.started, t.todo, t.last)
    requires t.todo[0].StartOp? ==> !t.handle
    ensures Reaches(s, u) && u == Resting(u.handle, u.started, t.todo[1..], u.last)
    ensures u.handle == match t.todo[0] case SyncOp => t.handle case StartOp(_) => true case KillOp => false
  {
    u := NextStep(s, t, Controller);
    match t.todo[0]
    case SyncOp =>
      u := RestingSync(s, u, Outside);
    case StartOp(wait) =>
      u := RestingSync(s, u, InRunAsync(wait));
      u := StartUpToReset(s, u, wait);
      u := NextStep(s, u, Controller);
      u := NextStep(s, u, Controller);
      u := Announce(s, u);
      if wait {
        u := RestingSync(s, u, InRun);
      }
    case KillOp =>
      if t.handle {
        u := RestingSync(s, u, InKill);
        u := NextStep(s, u, WorkerGoes);
        u := NextStep(s, u, WorkerGoes);
        u := NextStep(s, u, WorkerGoes);
        u := NextStep(s, u, Controller);
      }
  }

  /**
   The race: the old worker has cleared m_alive but not yet looked at m_started when the controller starts a new
   thread. It then finds m_started reset, announces itself a second time, and the new worker's own announcement
   fails its assertion.
   */
  lemma StartWithoutJoinFails(s: State, t: State) returns (u: State)
    requires Reaches(s, t) && t.todo != [] && t == Resting(true, true, t.todo, t.last) && t.todo[0].StartOp?
    ensures Reaches(s, u) && u.failed
  {
    var wait := t.todo[0].wait;
    u := NextStep(s, t, WorkerGoes);
    u := NextStep(s, u, WorkerGoes);
    assert u.worker == Completing(1) && !u.alive;
    u := NextStep(s, u, Controller);
    u := RestingSync(s, u, InRunAsync(wait));
    u := StartUpToReset(s, u, wait);
    u := NextStep(s, u, WorkerGoes);
    assert u.worker == Announcing(0, true);
    u := NextStep(s, u, WorkerGoes);
    u := NextStep(s, u, WorkerGoes);
    u := NextStep(s, u, WorkerGoes);
    assert u.worker == Exited && u.value == 1;
    u := NextStep(s, u, Controller);
    u := NextStep(s, u, Controller);
    assert u.worker == Body && u.value == 1;
    u := NextStep(s, u, WorkerAnnounces);
    u := NextStep(s, u, WorkerGoes);
  }

  lemma {:induction false} UndisciplinedFails(s: State, t: State) returns (u: State)
    requires Reaches(s, t) && t == Resting(t.handle, t.started, t.todo, t.last) && !Disciplined(t.todo, !t.handle)
    ensures Reaches(s, u) && u.failed
    decreases |t.todo|
  {
    if t.todo[0].StartOp? && t.handle {
      u := StartWithoutJoinFails(s, t);
    } else {
      var v := CallFromRest(s, t);
      u := UndisciplinedFails(s, v);
    }
  }

  /**
   A program of calls is safe in every interleaving if and only if it joins the old thread before every further
   start.
   */
  lemma SafeIffDisciplined(todo: seq<Op>)
    ensures (forall actions :: Safe(Exec(Init(todo), actions))) <==> Disciplined(todo, true)
  {
    if Disciplined(todo, true) {
      forall actions
        ensures Safe(Exec(Init(todo), actions))
      {
        DisciplinedIsSafe(todo, actions);
      }
    } else {
      var s := Init(todo);
      assert Exec(s, []) == s;
      var u := UndisciplinedFails(s, s);
      var actions :| Exec(s, actions) == u;
      assert !Safe(Exec(s, actions));
    }
  }
}
