/** A guard::co_task that lives on: children are loaded and unload at any time, any number of coroutines
    call wait_all and wait on it, any number of times, and live children may be destroyed. */
module LiveTask {
  import opened GuardAsync
  import opened TaskIds

  /** A waiting coroutine is elsewhere, about to test the table in wait_all's loop, about to suspend,
      asleep, or taken off the queue. */
  datatype Phase = Outside | Checking | Suspending | Sleeping | Woken

  /** `loads` counts the children loaded since construction, `looping` holds the coroutines whose present
      call is wait_all; `pending` holds the children whose unload has erased its entry and not yet
      delivered. */
  datatype State = State(loads: nat, phases: map<Ticket, Phase>, looping: set<Ticket>, async: Async<Table>,
                         pending: set<Child>)

  datatype Step =
    | Load(newId: int) | Erase(c: Child) | Deliver(c: Child)
    | Destroy(c: Child)  // destroying all children is one such step for each of them
    | CallWaitAll(t: Ticket) | CallWait(t: Ticket) | Check(t: Ticket) | Suspend(t: Ticket) | Resume(t: Ticket)

  /** How a task is used: by how many waiting coroutines, and whether children are destroyed. */
  datatype Use = Use(waiters: nat, destroys: bool)

  ghost predicate Allowed(u: Use, step: Step) {
    match step
    case Load(_) => true
    case Erase(_) => true
    case Deliver(_) => true
    case Destroy(_) => u.destroys
    case _ => step.t < u.waiters
  }

  function PhaseOf(s: State, t: Ticket): Phase {
    if t in s.phases then s.phases[t] else Outside
  }

  ghost predicate Enabled(s: State, step: Step) {
    var table := s.async.shared;
    match step
    case Load(newId) => CanLoad(table, newId)
    case Erase(c) => c in table.promises
    case Deliver(c) => c in s.pending
    case Destroy(c) => c in table.promises
    case CallWaitAll(t) => PhaseOf(s, t) == Outside
    case CallWait(t) => PhaseOf(s, t) == Outside
    case Check(t) => PhaseOf(s, t) == Checking
    case Suspend(t) => PhaseOf(s, t) == Suspending
    case Resume(t) => PhaseOf(s, t) == Woken
  }

  /** Where a waiter goes on after its suspend call: round the loop, or out of wait. */
  function Back(s: State, t: Ticket): Phase {
    if t in s.looping then Checking else Outside
  }

  ghost function Take(s: State, step: Step): State
    requires Enabled(s, step)
  {
    var table := s.async.shared;
    match step
    case Load(newId) =>
      s.(loads := s.loads + 1,
         async := s.async.(shared := Loaded(table, s.loads, newId)))
    case Erase(c) =>
      s.(async := s.async.(shared := Erased(table, c)),
         pending := Delivering(table, c, s.pending))
    case Deliver(c) =>
      var (a, woken) := DeliverBlock(s.async);
      s.(async := a, pending := s.pending - {c},
         phases := if woken.Some? then s.phases[woken.value := Woken] else s.phases)
    case Destroy(c) => s.(async := s.async.(shared := table.(promises := table.promises - {c})))
    case CallWaitAll(t) => s.(phases := s.phases[t := Checking], looping := s.looping + {t})
    case CallWait(t) => s.(phases := s.phases[t := Suspending], looping := s.looping - {t})
    case Check(t) => s.(phases := s.phases[t := if table.promises == map[] then Outside else Suspending])
    case Suspend(t) =>
      var (a, queued) := WaitBlock(s.async, t);
      s.(async := a, phases := s.phases[t := if queued then Sleeping else Back(s, t)])
    case Resume(t) => s.(phases := s.phases[t := Back(s, t)])
  }

  const START := State(0, map[], {}, Async(Table(map[], {}, 0), [], [], []), {})

  /** The queue holds each sleeper once, and nobody queues before the first child. */
  ghost predicate QueueInv(s: State, u: Use) {
    var queue := s.async.waiters;
    && (forall t :: t in queue <==> PhaseOf(s, t) == Sleeping)
    && (forall i :: 0 <= i < |queue| ==> queue[i] < u.waiters)
    && (forall i, j :: 0 <= i < j < |queue| ==> queue[i] != queue[j])
    && (s.loads == 0 ==> queue == [] && s.async.shared.promises == map[])
  }

  /** Up to the maximum, identifiers are handed out one after another and never 0. */
  ghost predicate IdsInv(s: State) {
    var table := s.async.shared;
    && table.id == s.loads
    && (forall x :: x in table.ids ==> 1 <= x <= s.loads)
    && (forall c :: c in table.promises ==> c < s.loads && 1 <= table.promises[c] <= s.loads)
  }

  /** Somebody is left to wake the sleepers: a live child, or an unload that has still to deliver. */
  ghost predicate Covered(s: State) {
    s.async.waiters != [] ==> s.async.shared.promises != map[] || s.pending != {}
  }

  ghost predicate Inv(s: State, u: Use) {
    && QueueInv(s, u)
    && (s.loads <= TASK_ID_MAX ==> IdsInv(s))
    && (s.loads <= TASK_ID_MAX && u.waiters <= 1 && !u.destroys ==> Covered(s))
  }

  lemma TakeKeepsQueueInv(s: State, step: Step, u: Use)
    requires QueueInv(s, u) && Enabled(s, step) && Allowed(u, step)
    ensures QueueInv(Take(s, step), u)
  {
    var after := Take(s, step);
    if step.Deliver? && s.async.waiters != [] {
      var first := s.async.waiters[0];
      assert first in s.async.waiters;
      forall t ensures t in after.async.waiters <==> PhaseOf(after, t) == Sleeping {
        assert t in s.async.waiters <==> t == first || t in s.async.waiters[1..];
      }
    }
  }

  lemma AloneInQueue(s: State, u: Use)
    requires QueueInv(s, u)
    ensures u.waiters <= 1 ==> |s.async.waiters| <= 1
  {
    if |s.async.waiters| > 1 {
      assert s.async.waiters[0] != s.async.waiters[1];
    }
  }

  lemma TakeKeepsIdsInv(s: State, step: Step)
    requires IdsInv(s) && Enabled(s, step) && Take(s, step).loads <= TASK_ID_MAX
    ensures IdsInv(Take(s, step))
  {
    if step.Load? {
      NextIdIsSucc(s.async.shared.id, s.async.shared.ids, step.newId);
    }
  }

  lemma TakeKeepsInv(s: State, step: Step, u: Use)
    requires Inv(s, u) && Enabled(s, step) && Allowed(u, step)
    ensures Inv(Take(s, step), u)
  {
    TakeKeepsQueueInv(s, step, u);
    var after := Take(s, step);
    if after.loads <= TASK_ID_MAX {
      TakeKeepsIdsInv(s, step);
      match step
      case Erase(c) => assert c in after.pending;
      case Deliver(c) =>
        AloneInQueue(s, u);
      case _ =>
    }
  }

  ghost predicate Next(s: State, t: State, u: Use) {
    exists step :: Enabled(s, step) && Allowed(u, step) && t == Take(s, step)
  }

  ghost predicate Run(run: seq<State>, u: Use) {
    run != [] && run[0] == START && forall i :: 0 <= i < |run| - 1 ==> Next(run[i], run[i + 1], u)
  }

  lemma {:induction false} RunKeepsInv(run: seq<State>, u: Use, i: nat)
    requires Run(run, u) && i < |run|
    ensures Inv(run[i], u)
  {
    if i > 0 {
      RunKeepsInv(run, u, i - 1);
      assert Next(run[i - 1], run[i], u);
      var step :| Enabled(run[i - 1], step) && Allowed(u, step) && run[i] == Take(run[i - 1], step);
      TakeKeepsInv(run[i - 1], step, u);
    }
  }

  /** As long as no more children have been loaded than there are identifiers above 0, and none is
      destroyed, a waiter that is alone is covered by a live child or an unload that has still to deliver. */
  lemma EveryRunCoversTheWaiter(run: seq<State>, i: nat)
    requires Run(run, Use(1, false)) && i < |run| && run[i].loads <= TASK_ID_MAX
    ensures forall t :: PhaseOf(run[i], t) == Sleeping ==> run[i].async.shared.promises != map[] || run[i].pending != {}
  {
    RunKeepsInv(run, Use(1, false), i);
    forall t | PhaseOf(run[i], t) == Sleeping ensures run[i].async.waiters != [] {
      assert t in run[i].async.waiters;
    }
  }

  /** When wait and wait_all begin and end. wait does not test the table first; it returns at once when no
      child is live at its suspend call, and otherwise when it is woken. wait_all returns exactly when its
      own test finds no child live. */
  lemma WaitReturnsExactly(s: State, step: Step, t: Ticket)
    requires Enabled(s, step)
    ensures var after := Take(s, step);
            && (step == CallWait(t) ==> PhaseOf(after, t) == Suspending && t !in after.looping)
            && (step == CallWaitAll(t) ==> PhaseOf(after, t) == Checking && t in after.looping)
            && (PhaseOf(s, t) != Outside ==> (t in after.looping <==> t in s.looping))
            && (PhaseOf(s, t) != Outside && PhaseOf(s, t) != Sleeping && t in s.looping ==>
                  (PhaseOf(after, t) == Outside <==> step == Check(t) && s.async.shared.promises == map[]))
            && ((PhaseOf(s, t) == Suspending || PhaseOf(s, t) == Woken) && t !in s.looping ==>
                  (PhaseOf(after, t) == Outside <==>
                   (step == Suspend(t) && s.async.shared.promises == map[]) || step == Resume(t)))
    ensures PhaseOf(s, t) == Outside ==> Enabled(s, CallWait(t)) && Enabled(s, CallWaitAll(t))
    ensures PhaseOf(s, t) == Checking ==> Enabled(s, Check(t))
    ensures PhaseOf(s, t) == Suspending ==> Enabled(s, Suspend(t))
    ensures PhaseOf(s, t) == Woken ==> Enabled(s, Resume(t))
  {
  }

  /** A child can be loaded exactly as long as fewer than half the maximum of identifiers are in use, the
      bound that the source asserts. */
  lemma CanLoadExactly(s: State)
    ensures (exists newId :: Enabled(s, Load(newId))) <==> |s.async.shared.ids| < 500_000_000_000_000_000
  {
    if |s.async.shared.ids| < 500_000_000_000_000_000 {
      var free := FirstFreeExists(s.async.shared.id, s.async.shared.ids);
      assert Enabled(s, Load(free));
    }
  }

  // ---------------------------------------------------------------- sleepers left behind

  /** Somebody sleeps with no child live and no unload left to deliver. */
  ghost predicate Stranded(s: State) {
    (exists t :: PhaseOf(s, t) == Sleeping) && s.async.shared.promises == map[] && s.pending == {}
  }

  /** Nothing but a new child can change that: every other step leaves each sleeper asleep. */
  lemma StrandedIsStuck(s: State, step: Step)
    requires Stranded(s) && Enabled(s, step) && !step.Load?
    ensures Stranded(Take(s, step))
    ensures forall t :: PhaseOf(s, t) == Sleeping ==> PhaseOf(Take(s, step), t) == Sleeping
  {
    var t :| PhaseOf(s, t) == Sleeping;
    assert PhaseOf(Take(s, step), t) == Sleeping;
  }

  ghost predicate Reaches(s: State, u: Use) {
    exists run :: Run(run, u) && run[|run| - 1] == s
  }

  lemma ReachedKeepsInv(s: State, u: Use)
    requires Reaches(s, u)
    ensures Inv(s, u)
  {
    var run :| Run(run, u) && run[|run| - 1] == s;
    RunKeepsInv(run, u, |run| - 1);
  }

  lemma StartReached(u: Use)
    ensures Reaches(START, u)
  {
    assert Run([START], u);
  }

  lemma StepReached(s: State, step: Step, u: Use)
    requires Reaches(s, u) && Enabled(s, step) && Allowed(u, step)
    ensures Reaches(Take(s, step), u)
  {
    hide Take, Enabled, Allowed;
    var run :| Run(run, u) && run[|run| - 1] == s;
    var longer := run + [Take(s, step)];
    forall i | 0 <= i < |longer| - 1 ensures Next(longer[i], longer[i + 1], u) {
      if i < |run| - 1 {
        assert Next(run[i], run[i + 1], u);
      } else {
        assert Next(s, Take(s, step), u);
      }
    }
    assert Run(longer, u);
  }

  /** This table after so many loads, and nothing else going on. */
  function Quiet(loads: nat, table: Table): State {
    State(loads, map[], {}, Async(table, [], [], []), {})
  }

  /** A child that is loaded and unloads while nobody waits. */
  lemma PassThrough(k: nat, id: int, newId: int, u: Use)
    requires Reaches(Quiet(k, Table(map[], {}, id)), u) && FirstFree(id, {}, newId) && newId != 0
    ensures Reaches(Quiet(k + 1, Table(map[], {}, newId)), u)
  {
    hide Reaches, FirstFree;
    var s := Quiet(k, Table(map[], {}, id));
    StepReached(s, Load(newId), u);
    var a := Take(s, Load(newId));
    StepReached(a, Erase(k), u);
    var b := Take(a, Erase(k));
    StepReached(b, Deliver(k), u);
    assert map[k := newId] - {k} == map[];
    assert {newId} - {newId} == {};
    assert Take(b, Deliver(k)) == Quiet(k + 1, Table(map[], {}, newId));
  }

  lemma {:induction false} AllPassThrough(k: nat, u: Use)
    requires k <= TASK_ID_MAX
    ensures Reaches(Quiet(k, Table(map[], {}, k)), u)
  {
    if k == 0 {
      StartReached(u);
    } else {
      AllPassThrough(k - 1, u);
      assert Distance(k - 1, k) == 1;
      PassThrough(k - 1, k - 1, k, u);
    }
  }

  /** One more child, with nobody waiting yet. */
  lemma LoadOne(k: nat, newId: int, u: Use) returns (s: State)
    requires k <= TASK_ID_MAX && newId == Succ(k)
    ensures s == Quiet(k + 1, Table(map[k := newId], {newId}, newId)) && Reaches(s, u)
  {
    AllPassThrough(k, u);
    assert Distance(k, newId) == 1;
    s := Quiet(k, Table(map[], {}, k));
    assert FirstFree(k, {}, newId);
    hide Reaches, FirstFree;
    StepReached(s, Load(newId), u);
    s := Take(s, Load(newId));
  }

  /** A coroutine that has not waited yet calls wait_all while a child is live, and falls asleep. */
  lemma FallsAsleep(s: State, t: Ticket, u: Use) returns (r: State)
    requires Reaches(s, u) && t !in s.phases && t < u.waiters && s.async.shared.promises != map[]
    ensures Reaches(r, u)
    ensures r.loads == s.loads && r.pending == s.pending && r.phases == s.phases[t := Sleeping]
    ensures r.async.shared == s.async.shared && r.async.waiters == s.async.waiters + [t]
  {
    hide Reaches;
    StepReached(s, CallWaitAll(t), u);
    r := Take(s, CallWaitAll(t));
    StepReached(r, Check(t), u);
    r := Take(r, Check(t));
    StepReached(r, Suspend(t), u);
    r := Take(r, Suspend(t));
  }

  /** The child loaded when the identifiers wrap is given 0, and a waiter sleeps on it. */
  lemma WrappedStrands(u: Use) returns (s: State)
    requires u.waiters >= 1
    ensures Reaches(s, u) && Stranded(s) && s.loads == TASK_ID_MAX + 1
  {
    s := LoadOne(TASK_ID_MAX, 0, u);
    assert TASK_ID_MAX in s.async.shared.promises;
    hide Reaches, Inv;
    s := FallsAsleep(s, 0, u);
    StepReached(s, Erase(TASK_ID_MAX), u);
    s := Take(s, Erase(TASK_ID_MAX));
    assert map[TASK_ID_MAX := 0] - {TASK_ID_MAX} == map[];
    assert PhaseOf(s, 0) == Sleeping;
  }

  /** Two coroutines sleep on one child, which delivers once. */
  lemma SecondWaiterStrands(u: Use) returns (s: State)
    requires u.waiters >= 2
    ensures Reaches(s, u) && Stranded(s) && s.loads == 1
  {
    s := LoadOne(0, 1, u);
    assert 0 in s.async.shared.promises;
    hide Reaches, Inv;
    s := FallsAsleep(s, 0, u);
    s := FallsAsleep(s, 1, u);
    StepReached(s, Erase(0), u);
    s := Take(s, Erase(0));
    StepReached(s, Deliver(0), u);
    s := Take(s, Deliver(0));
    assert map[0 := 1] - {0} == map[];
    assert PhaseOf(s, 1) == Sleeping;
  }

  /** A destroyed child never delivers. */
  lemma DestroyStrands(u: Use) returns (s: State)
    requires u.waiters >= 1 && u.destroys
    ensures Reaches(s, u) && Stranded(s) && s.loads == 1
  {
    s := LoadOne(0, 1, u);
    assert 0 in s.async.shared.promises;
    hide Reaches, Inv;
    s := FallsAsleep(s, 0, u);
    StepReached(s, Destroy(0), u);
    s := Take(s, Destroy(0));
    assert map[0 := 1] - {0} == map[];
    assert PhaseOf(s, 0) == Sleeping;
  }

  /** The exact bound: within n loads over its life a task can leave a waiter behind if and only if some
      coroutine waits and n exceeds the identifiers above 0, because a child is then given 0, which its
      unload takes for "not found"; or there is a child at all and a second coroutine waits, or children
      are destroyed. */
  lemma StrandsExactly(u: Use, n: nat)
    ensures (exists s :: Reaches(s, u) && s.loads <= n && Stranded(s)) <==>
            u.waiters >= 1 && (n > TASK_ID_MAX || (n >= 1 && (u.waiters >= 2 || u.destroys)))
  {
    if u.waiters >= 1 && n > TASK_ID_MAX {
      var s := WrappedStrands(u);
    } else if u.waiters >= 2 && n >= 1 {
      var s := SecondWaiterStrands(u);
    } else if u.waiters >= 1 && n >= 1 && u.destroys {
      var s := DestroyStrands(u);
    } else {
      forall s | Reaches(s, u) && s.loads <= n ensures !Stranded(s) {
        ReachedKeepsInv(s, u);
        if t: Ticket :| PhaseOf(s, t) == Sleeping {
          assert t in s.async.waiters;
        }
      }
    }
  }

  // ---------------------------------------------------------------- identifiers reported as an int

  /** A live child whose loader was told another number than its identifier. */
  ghost predicate Misreported(s: State) {
    exists c :: c in s.async.shared.promises && ToInt(s.async.shared.promises[c]) != s.async.shared.promises[c]
  }

  /** Within n loads that can happen exactly from the 2^31st load on, however the task is used. */
  lemma MisreportsExactly(u: Use, n: nat)
    ensures (exists s :: Reaches(s, u) && s.loads <= n && Misreported(s)) <==> n >= 0x8000_0000
  {
    if n >= 0x8000_0000 {
      var s := LoadOne(0x7FFF_FFFF, 0x8000_0000, u);
      assert 0x7FFF_FFFF in s.async.shared.promises;
      assert Misreported(s);
    } else {
      forall s | Reaches(s, u) && s.loads <= n ensures !Misreported(s) {
        ReachedKeepsInv(s, u);
      }
    }
  }
}
