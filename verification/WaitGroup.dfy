/** co_waitgroup: an atomic counter outside the mutex of its wait queue. */
module WaitGroup {
  import opened GuardAsync

  /** A `wait` call takes the mutex, reads the counter under it, and then either queues and releases the
      mutex or just releases it. A `done` call decrements the counter and, unless it stays positive,
      drains the queue one waiter at a time until it finds it empty. */
  datatype Phase =
    | Idle
    | Locked      // wait: holds the mutex, counter not read yet
    | WillQueue   // wait: read a positive counter, holds the mutex
    | WillPass    // wait: read zero or less, holds the mutex
    | Queued      // wait: asleep in the queue
    | Woken       // wait: taken off the queue
    | Draining    // done: inside its drain loop
    | Done

  datatype State = State(count: int, mutex: Option<Ticket>, async: Async<()>, phases: map<Ticket, Phase>)

  datatype Step =
    | Add(n: int)
    | Lock(t: Ticket) | Read(t: Ticket) | Queue(t: Ticket) | Pass(t: Ticket) | Resume(t: Ticket)
    | Decrement(t: Ticket) | Deliver(t: Ticket)

  function PhaseOf(s: State, t: Ticket): Phase {
    if t in s.phases then s.phases[t] else Idle
  }

  /** An addition that does not bring a positive count down to zero or less; only `done` may. */
  predicate SafeAdd(count: int, n: int) {
    count > 0 ==> count + n > 0
  }

  predicate Enabled(s: State, step: Step) {
    match step
    case Add(n) => SafeAdd(s.count, n)
    case Lock(t) => PhaseOf(s, t) == Idle && s.mutex.None?
    case Read(t) => PhaseOf(s, t) == Locked
    case Queue(t) => PhaseOf(s, t) == WillQueue
    case Pass(t) => PhaseOf(s, t) == WillPass
    case Resume(t) => PhaseOf(s, t) == Woken
    case Decrement(t) => PhaseOf(s, t) == Idle
    case Deliver(t) => PhaseOf(s, t) == Draining && s.mutex.None?
  }

  function Keep(u: (), t: Ticket): () { u }

  function DeliverBlock(a: Async<()>): (Async<()>, Option<Ticket>) {
    EvBlock(a, (u: ()) => u, Keep)
  }

  function Take(s: State, step: Step): State
    requires Enabled(s, step)
  {
    match step
    case Add(n) => s.(count := s.count + n)
    case Lock(t) => s.(mutex := Some(t), phases := s.phases[t := Locked])
    case Read(t) => s.(phases := s.phases[t := if s.count > 0 then WillQueue else WillPass])
    case Queue(t) =>
      var (a, queued) := SuspendBlock(s.async, t, (u: ()) => true, Keep);
      s.(mutex := None, async := a, phases := s.phases[t := Queued])
    case Pass(t) => s.(mutex := None, phases := s.phases[t := Done])
    case Resume(t) => s.(phases := s.phases[t := Done])
    case Decrement(t) => s.(count := s.count - 1, phases := s.phases[t := if s.count - 1 > 0 then Done else Draining])
    case Deliver(t) =>
      var (a, woken) := DeliverBlock(s.async);
      s.(async := a, phases := if woken.Some? then s.phases[woken.value := Woken] else s.phases[t := Done])
  }

  /** Somebody sleeps in the queue, or has read a positive counter and is about to. */
  ghost predicate SomebodyWaits(s: State) {
    s.async.waiters != [] || exists t :: PhaseOf(s, t) == WillQueue
  }

  ghost predicate SomebodyDrains(s: State) {
    exists t :: PhaseOf(s, t) == Draining
  }

  ghost predicate HoldsMutex(p: Phase) {
    p == Locked || p == WillQueue || p == WillPass
  }

  ghost predicate Inv(s: State) {
    && Fifo(s.async)
    && (forall t: Ticket :: HoldsMutex(PhaseOf(s, t)) <==> s.mutex == Some(t))
    && (forall t :: t in s.async.waiters <==> PhaseOf(s, t) == Queued)
    && (forall i, j :: 0 <= i < j < |s.async.waiters| ==> s.async.waiters[i] != s.async.waiters[j])
    && (SomebodyWaits(s) ==> s.count > 0 || SomebodyDrains(s))
  }

  const START := State(0, None, Async((), [], [], []), map[])

  /** A drain step either takes a waiter and keeps draining, or finds the queue empty with nobody
      between reading the counter and queueing, because the mutex is free. */
  lemma DeliverKeepsInv(s: State, t: Ticket)
    requires Inv(s) && Enabled(s, Deliver(t))
    ensures Inv(Take(s, Deliver(t)))
  {
    var after := Take(s, Deliver(t));
    BlocksKeepFifo(s.async, t, (u: ()) => true, (u: ()) => u, Keep);
    if s.async.waiters == [] {
      forall u: Ticket ensures PhaseOf(after, u) != WillQueue {
        assert HoldsMutex(PhaseOf(s, u)) <==> s.mutex == Some(u);
      }
      assert !SomebodyWaits(after);
    } else {
      var w := s.async.waiters[0];
      assert w in s.async.waiters;
      assert PhaseOf(after, t) == Draining;
      forall x ensures x in after.async.waiters <==> PhaseOf(after, x) == Queued {
        assert x in s.async.waiters <==> x == w || x in s.async.waiters[1..];
      }
    }
  }

  lemma OthersKeepInv(s: State, step: Step)
    requires Inv(s) && Enabled(s, step) && !step.Deliver?
    ensures Inv(Take(s, step))
  {
    var after := Take(s, step);
    if step.Queue? {
      BlocksKeepFifo(s.async, step.t, (u: ()) => true, (u: ()) => u, Keep);
      assert PhaseOf(s, step.t) == WillQueue;
    }
    if step.Decrement? && s.count - 1 <= 0 {
      assert PhaseOf(after, step.t) == Draining;
    }
    if SomebodyDrains(s) {
      var d :| PhaseOf(s, d) == Draining;
      assert PhaseOf(after, d) == Draining;
    }
    if SomebodyWaits(after) && after.async.waiters == [] {
      var w :| PhaseOf(after, w) == WillQueue;
      assert (step.Read? && w == step.t) || PhaseOf(s, w) == WillQueue;
    }
  }

  ghost predicate Next(s: State, t: State) {
    exists step :: Enabled(s, step) && t == Take(s, step)
  }

  ghost predicate Run(run: seq<State>) {
    run != [] && run[0] == START && forall i :: 0 <= i < |run| - 1 ==> Next(run[i], run[i + 1])
  }

  lemma {:induction false} RunKeepsInv(run: seq<State>, i: nat)
    requires Run(run) && i < |run|
    ensures Inv(run[i])
  {
    if i > 0 {
      RunKeepsInv(run, i - 1);
      assert Next(run[i - 1], run[i]);
      var step :| Enabled(run[i - 1], step) && run[i] == Take(run[i - 1], step);
      if step.Deliver? {
        DeliverKeepsInv(run[i - 1], step.t);
      } else {
        OthersKeepInv(run[i - 1], step);
      }
    }
  }

  /** No wake-up is lost, for any number of adders, finishers and waiters: whoever waits, or has decided
      to wait, is covered by a positive count or by a `done` that is still draining. */
  lemma EveryRunLosesNoWakeup(run: seq<State>, i: nat)
    requires Run(run) && i < |run|
    ensures forall t :: PhaseOf(run[i], t) == Queued || PhaseOf(run[i], t) == WillQueue ==>
                          run[i].count > 0 || SomebodyDrains(run[i])
    ensures run[i].async.arrived == run[i].async.served + run[i].async.waiters
  {
    RunKeepsInv(run, i);
    forall t | PhaseOf(run[i], t) == Queued ensures SomebodyWaits(run[i]) {
      assert t in run[i].async.waiters;
    }
  }

  /** Once the count is down and every `done` has left, nobody is asleep. */
  lemma QuietMeansAwake(run: seq<State>, i: nat)
    requires Run(run) && i < |run| && run[i].count <= 0 && !SomebodyDrains(run[i])
    ensures forall t :: PhaseOf(run[i], t) != Queued && PhaseOf(run[i], t) != WillQueue
  {
    EveryRunLosesNoWakeup(run, i);
  }

  /** Exactly the safe additions keep the invariant whatever the rest of the state. */
  lemma AddIsSafeExactly(count: int, n: int)
    ensures (forall s :: Inv(s) && s.count == count ==> Inv(s.(count := count + n))) <==> SafeAdd(count, n)
  {
    if SafeAdd(count, n) {
      forall s | Inv(s) && s.count == count ensures Inv(s.(count := count + n)) {
        OthersKeepInv(s, Add(n));
      }
    } else {
      var s := State(count, None, Async((), [0], [0], []), map[0 := Queued]);
      assert Inv(s) by {
        assert forall t: Ticket :: t in s.async.waiters <==> t == 0;
      }
      var after := s.(count := count + n);
      assert !SomebodyDrains(after);
      assert SomebodyWaits(after);
      assert !Inv(after);
      assert Inv(s) && s.count == count;
    }
  }

  /** `add(n)` with a negative n is a plain addition and wakes nobody: after one add and one wait,
      add(-1) leaves a sleeper with the count at zero and nobody draining. */
  lemma NegativeAddStrands() returns (run: seq<State>)
    ensures Run(run)
    ensures var s := run[|run| - 1]; var t := s.(count := s.count + -1);
            PhaseOf(t, 0) == Queued && t.count <= 0 && !SomebodyDrains(t)
  {
    var a := Take(START, Add(1));
    var b := Take(a, Lock(0));
    var c := Take(b, Read(0));
    var d := Take(c, Queue(0));
    run := [START, a, b, c, d];
    assert Enabled(START, Add(1)) && Enabled(a, Lock(0)) && Enabled(b, Read(0)) && Enabled(c, Queue(0));
    assert Next(START, a) && Next(a, b) && Next(b, c) && Next(c, d);
    forall u: Ticket ensures PhaseOf(d, u) != Draining {
    }
  }

  /** Exactly on a count above zero wait decides to queue, and then it is last in the queue; on a lower
      one it leaves without suspending. */
  lemma WaitQueuesExactly(s: State, t: Ticket)
    requires Inv(s) && PhaseOf(s, t) == Locked
    ensures Enabled(s, Read(t))
    ensures var r := Take(s, Read(t));
            if s.count > 0 then
              && Enabled(r, Queue(t)) && !Enabled(r, Pass(t)) && PhaseOf(Take(r, Queue(t)), t) == Queued
              && Take(r, Queue(t)).async.waiters == s.async.waiters + [t] && Take(r, Queue(t)).mutex.None?
            else
              && Enabled(r, Pass(t)) && !Enabled(r, Queue(t)) && PhaseOf(Take(r, Pass(t)), t) == Done
              && Take(r, Pass(t)).async == s.async && Take(r, Pass(t)).mutex.None?
  {
  }

  /** Each round of a drain loop wakes the first waiter, who then leaves wait, and the loop goes on until it
      finds nobody. */
  lemma DrainWakesFirst(s: State, d: Ticket)
    requires Inv(s) && PhaseOf(s, d) == Draining && s.mutex.None?
    ensures Enabled(s, Deliver(d))
    ensures var r := Take(s, Deliver(d));
            if s.async.waiters == [] then PhaseOf(r, d) == Done
            else
              var first := s.async.waiters[0];
              && r.async.waiters == s.async.waiters[1..] && PhaseOf(r, d) == Draining && PhaseOf(r, first) == Woken
              && Enabled(r, Resume(first)) && PhaseOf(Take(r, Resume(first)), first) == Done
  {
    if s.async.waiters != [] {
      assert s.async.waiters[0] in s.async.waiters;
    }
  }

  // ---------------------------------------------------------------- early wake-ups

  /** A step of `wait` or of a drain loop: neither `add` nor the decrement of a `done`. */
  ghost predicate Undisturbed(s: State, t: State) {
    exists step: Step :: !step.Add? && !step.Decrement? && Enabled(s, step) && t == Take(s, step)
  }

  /** The count stays positive, and nobody adds or finishes. */
  ghost predicate PositivePath(path: seq<State>) {
    && path != []
    && (forall i :: 0 <= i < |path| ==> path[i].count > 0)
    && (forall i :: 0 <= i < |path| - 1 ==> Undisturbed(path[i], path[i + 1]))
  }

  ghost predicate Leads(s: State, r: State) {
    exists path :: PositivePath(path) && path[0] == s && path[|path| - 1] == r
  }

  /** Ticket t has not called wait yet, and can still call it and be woken while the count is positive
      from now on until then. */
  ghost predicate EarlyFrom(s: State, t: Ticket) {
    PhaseOf(s, t) == Idle && exists r :: Leads(s, r) && PhaseOf(r, t) == Woken
  }

  lemma LeadsOn(s: State, r: State, step: Step)
    requires Leads(s, r) && Enabled(r, step) && !step.Add? && !step.Decrement?
    ensures Leads(s, Take(r, step))
  {
    var path :| PositivePath(path) && path[0] == s && path[|path| - 1] == r;
    assert Undisturbed(r, Take(r, step));
    assert PositivePath(path + [Take(r, step)]);
  }

  lemma InvGoesOn(s: State, step: Step)
    requires Inv(s) && Enabled(s, step)
    ensures Inv(Take(s, step))
  {
    if step.Deliver? {
      DeliverKeepsInv(s, step.t);
    } else {
      OthersKeepInv(s, step);
    }
  }

  /** One waiter holding the mutex gets rid of it, by reading first if it has not read yet. */
  lemma {:induction false} MutexComesFree(s: State, r: State, t: Ticket, d: Ticket) returns (free: State)
    requires Inv(r) && Leads(s, r) && PhaseOf(r, t) == Idle && PhaseOf(r, d) == Draining
    ensures Inv(free) && Leads(s, free) && PhaseOf(free, t) == Idle && PhaseOf(free, d) == Draining
    ensures free.mutex.None? && free.count == r.count
    decreases r.mutex.Some? && PhaseOf(r, r.mutex.value) == Locked
  {
    free := r;
    if r.mutex.Some? {
      var h := r.mutex.value;
      assert HoldsMutex(PhaseOf(r, h));
      var step := match PhaseOf(r, h) case Locked => Read(h) case WillQueue => Queue(h) case _ => Pass(h);
      InvGoesOn(r, step);
      LeadsOn(s, r, step);
      free := Take(r, step);
      if step.Read? {
        free := MutexComesFree(s, free, t, d);
      }
    }
  }

  lemma CallsAndQueues(s: State, r: State, t: Ticket, d: Ticket) returns (q: State)
    requires Inv(r) && Leads(s, r) && PhaseOf(r, t) == Idle && PhaseOf(r, d) == Draining
    requires r.mutex.None? && r.count > 0
    ensures Inv(q) && Leads(s, q) && PhaseOf(q, d) == Draining && q.mutex.None? && t in q.async.waiters
  {
    hide Leads, Inv;
    InvGoesOn(r, Lock(t));
    LeadsOn(s, r, Lock(t));
    q := Take(r, Lock(t));
    InvGoesOn(q, Read(t));
    LeadsOn(s, q, Read(t));
    q := Take(q, Read(t));
    InvGoesOn(q, Queue(t));
    LeadsOn(s, q, Queue(t));
    q := Take(q, Queue(t));
  }

  lemma {:induction false} DrainReaches(s: State, q: State, t: Ticket, d: Ticket) returns (r: State)
    requires Inv(q) && Leads(s, q) && PhaseOf(q, d) == Draining && q.mutex.None? && t in q.async.waiters
    ensures Leads(s, r) && PhaseOf(r, t) == Woken
    decreases |q.async.waiters|
  {
    InvGoesOn(q, Deliver(d));
    LeadsOn(s, q, Deliver(d));
    r := Take(q, Deliver(d));
    var first := q.async.waiters[0];
    assert first in q.async.waiters;
    if first != t {
      assert q.async.waiters == [first] + q.async.waiters[1..];
      r := DrainReaches(s, r, t, d);
    }
  }

  lemma UndisturbedStep(s: State, r: State, t: Ticket)
    requires Undisturbed(s, r) && !SomebodyDrains(s) && PhaseOf(s, t) != Woken
    ensures !SomebodyDrains(r) && PhaseOf(r, t) != Woken
  {
    var step: Step :| !step.Add? && !step.Decrement? && Enabled(s, step) && r == Take(s, step);
    forall u: Ticket ensures PhaseOf(r, u) != Draining {
      assert PhaseOf(s, u) != Draining;
    }
  }

  lemma {:induction false} NobodyWakes(path: seq<State>, i: nat, t: Ticket)
    requires PositivePath(path) && i < |path| && !SomebodyDrains(path[0]) && PhaseOf(path[0], t) != Woken
    ensures !SomebodyDrains(path[i]) && PhaseOf(path[i], t) != Woken
  {
    if i > 0 {
      NobodyWakes(path, i - 1, t);
      assert Undisturbed(path[i - 1], path[i]);
      UndisturbedStep(path[i - 1], path[i], t);
    }
  }

  /** Whoever has not called wait yet can be woken early exactly when a `done` drains while the count is
      positive. */
  lemma EarlyExactly(s: State, t: Ticket)
    requires Inv(s) && PhaseOf(s, t) == Idle
    ensures EarlyFrom(s, t) <==> SomebodyDrains(s) && s.count > 0
  {
    if SomebodyDrains(s) && s.count > 0 {
      var d :| PhaseOf(s, d) == Draining;
      assert PositivePath([s]);
      var r := MutexComesFree(s, s, t, d);
      r := CallsAndQueues(s, r, t, d);
      r := DrainReaches(s, r, t, d);
    }
    if EarlyFrom(s, t) {
      var r :| Leads(s, r) && PhaseOf(r, t) == Woken;
      var path :| PositivePath(path) && path[0] == s && path[|path| - 1] == r;
      if !SomebodyDrains(s) {
        NobodyWakes(path, |path| - 1, t);
      }
    }
  }

  ghost predicate ByAdd(s: State, t: State) {
    exists n :: Enabled(s, Add(n)) && t == Take(s, Add(n))
  }

  /** Every `add` called while some `done` drains leaves the count at zero or less. */
  ghost predicate Calm(run: seq<State>) {
    forall i :: 0 <= i < |run| - 1 && SomebodyDrains(run[i]) && ByAdd(run[i], run[i + 1]) ==> run[i + 1].count <= 0
  }

  lemma StepDrains(s: State, step: Step)
    requires Enabled(s, step)
    ensures !SomebodyDrains(s) && SomebodyDrains(Take(s, step)) ==> Take(s, step).count <= 0
    ensures Take(s, step).count > s.count ==> step.Add?
    ensures step.Add? ==> (SomebodyDrains(s) <==> SomebodyDrains(Take(s, step)))
  {
    var t := Take(s, step);
    if !SomebodyDrains(s) && SomebodyDrains(t) {
      var d :| PhaseOf(t, d) == Draining;
      assert PhaseOf(s, d) != Draining;
    }
    if step.Add? {
      assert forall u :: PhaseOf(t, u) == PhaseOf(s, u);
    }
  }

  /** Whoever drains in a calm run finds the count down. */
  lemma {:induction false} DrainsWhenDown(run: seq<State>, i: nat)
    requires Run(run) && Calm(run) && i < |run|
    ensures SomebodyDrains(run[i]) ==> run[i].count <= 0
  {
    if i > 0 {
      DrainsWhenDown(run, i - 1);
      assert Next(run[i - 1], run[i]);
      var step :| Enabled(run[i - 1], step) && run[i] == Take(run[i - 1], step);
      StepDrains(run[i - 1], step);
      assert step.Add? ==> ByAdd(run[i - 1], run[i]);
    }
  }

  /** A run that is not calm has a state in which a `done` drains while the count is positive. */
  lemma DrainsWhenUp(run: seq<State>) returns (i: nat)
    requires Run(run) && !Calm(run)
    ensures i < |run| && SomebodyDrains(run[i]) && run[i].count > 0
  {
    i :| 0 <= i < |run| - 1 && SomebodyDrains(run[i]) && ByAdd(run[i], run[i + 1]) && run[i + 1].count > 0;
    var n :| Enabled(run[i], Add(n)) && run[i + 1] == Take(run[i], Add(n));
    StepDrains(run[i], Add(n));
    i := i + 1;
  }

  lemma {:induction false} SomeTicketOutside(tickets: set<Ticket>) returns (t: Ticket)
    ensures forall u :: u in tickets ==> u < t
  {
    t := 0;
    if tickets != {} {
      var u :| u in tickets;
      t := SomeTicketOutside(tickets - {u});
      assert forall v :: v in tickets ==> v == u || v in tickets - {u};
      if t <= u {
        t := u + 1;
      }
    }
  }

  /** The exact condition, in terms of the callers: somebody can be woken early at some moment of a run
      if and only if some `add` of that run is called while a `done` drains and leaves the count positive. */
  lemma CalmExactly(run: seq<State>)
    requires Run(run)
    ensures (exists i: nat, t :: i < |run| && EarlyFrom(run[i], t)) <==> !Calm(run)
  {
    hide EarlyFrom, Calm, SomebodyDrains, Inv;
    if !Calm(run) {
      var i := DrainsWhenUp(run);
      var t := SomeTicketOutside(run[i].phases.Keys);
      RunKeepsInv(run, i);
      EarlyExactly(run[i], t);
    } else {
      forall i: nat, t | i < |run| ensures !EarlyFrom(run[i], t) {
        RunKeepsInv(run, i);
        DrainsWhenDown(run, i);
        EarlyIsIdle(run[i], t);
      }
    }
  }

  lemma EarlyIsIdle(s: State, t: Ticket)
    requires Inv(s)
    ensures EarlyFrom(s, t) ==> SomebodyDrains(s) && s.count > 0
  {
    if PhaseOf(s, t) == Idle {
      EarlyExactly(s, t);
    }
  }

  /** In a calm run nobody is woken before the count is down. */
  lemma NoEarlyWakeup(run: seq<State>, i: nat, t: Ticket)
    requires Run(run) && Calm(run) && i + 1 < |run|
    requires PhaseOf(run[i], t) == Queued && PhaseOf(run[i + 1], t) == Woken
    ensures run[i].count <= 0
  {
    assert Next(run[i], run[i + 1]);
    var step :| Enabled(run[i], step) && run[i + 1] == Take(run[i], step);
    assert step.Deliver? && PhaseOf(run[i], step.t) == Draining;
    DrainsWhenDown(run, i);
  }

  lemma AddWhileDraining(run: seq<State>, i: nat, n: int, d: Ticket)
    requires i + 1 < |run| && PhaseOf(run[i], d) == Draining
    requires Enabled(run[i], Add(n)) && run[i + 1] == Take(run[i], Add(n)) && run[i + 1].count > 0
    ensures !Calm(run)
  {
    assert SomebodyDrains(run[i]) && ByAdd(run[i], run[i + 1]);
  }

  lemma RunGoesOn(run: seq<State>, step: Step) returns (longer: seq<State>)
    requires Run(run) && Enabled(run[|run| - 1], step)
    ensures Run(longer) && longer == run + [Take(run[|run| - 1], step)]
  {
    longer := run + [Take(run[|run| - 1], step)];
    assert Next(run[|run| - 1], Take(run[|run| - 1], step));
  }

  function OneDrains(count: int): State {
    State(count, None, Async((), [], [], []), map[1 := Draining])
  }

  /** add(1), done, and add(1) again before the drain loop of that done has looked at the queue. */
  lemma RaisedWhileDraining() returns (run: seq<State>)
    ensures Run(run) && |run| == 4 && run[2] == OneDrains(0) && run[3] == OneDrains(1)
  {
    run := RunGoesOn([START], Add(1));
    run := RunGoesOn(run, Decrement(1));
    run := RunGoesOn(run, Add(1));
  }

  /** When the count is raised again while a `done` drains, a waiter that came after that is woken
      although the count is positive during its whole wait. */
  lemma EarlyWakeup() returns (run: seq<State>)
    ensures Run(run) && |run| == 8 && !Calm(run)
    ensures PhaseOf(run[3], 0) == Idle && PhaseOf(run[6], 0) == Queued && PhaseOf(run[7], 0) == Woken
    ensures forall i :: 3 <= i < 8 ==> run[i].count == 1
  {
    run := RaisedWhileDraining();
    hide Run, SomebodyDrains, ByAdd, Calm;
    run := RunGoesOn(run, Lock(0));
    run := RunGoesOn(run, Read(0));
    run := RunGoesOn(run, Queue(0));
    run := RunGoesOn(run, Deliver(1));
    AddWhileDraining(run, 2, 1, 1);
  }
}
