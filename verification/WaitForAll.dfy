/** guard::wait_for_all: one coroutine loads its children into a task object and sleeps until all of
    them have unloaded; the children unload on any thread at any time after they were loaded. */
module WaitForAll {
  import opened GuardAsync
  import opened Order
  import opened TaskIds

  /** The parent is loading, about to call empty(), about to call wait(), asleep, taken off the queue,
      or has returned. */
  datatype Parent = Loading | Checking | Suspending | Sleeping | Woken | Returned

  const PARENT: Ticket := 0

  /** `loaded` counts the children loaded so far out of `total`; `pending` holds the children whose
      unload has erased its entry and not yet delivered. */
  datatype State = State(total: nat, loaded: nat, parent: Parent, async: Async<Table>, pending: set<Child>)

  datatype Step =
    | Load(newId: int) | EndLoad | Check | Suspend | Resume
    | Erase(c: Child) | Deliver(c: Child)

  ghost predicate Enabled(s: State, step: Step) {
    var table := s.async.shared;
    match step
    case Load(newId) => s.parent == Loading && s.loaded < s.total && CanLoad(table, newId)
    case EndLoad => s.parent == Loading && s.loaded == s.total
    case Check => s.parent == Checking
    case Suspend => s.parent == Suspending
    case Resume => s.parent == Woken
    case Erase(c) => c in table.promises
    case Deliver(c) => c in s.pending
  }

  ghost function Take(s: State, step: Step): State
    requires Enabled(s, step)
  {
    var table := s.async.shared;
    match step
    case Load(newId) =>
      s.(loaded := s.loaded + 1,
         async := s.async.(shared := Loaded(table, s.loaded, newId)))
    case EndLoad => s.(parent := Checking)
    case Check => s.(parent := if table.promises == map[] then Returned else Suspending)
    case Suspend =>
      var (a, queued) := WaitBlock(s.async, PARENT);
      s.(async := a, parent := if queued then Sleeping else Checking)
    case Resume => s.(parent := Checking)
    case Erase(c) =>
      s.(async := s.async.(shared := Erased(table, c)),
         pending := Delivering(table, c, s.pending))
    case Deliver(c) =>
      var (a, woken) := DeliverBlock(s.async);
      s.(async := a, pending := s.pending - {c}, parent := if woken.Some? then Woken else s.parent)
  }

  function Start(total: nat): State {
    State(total, 0, Loading, Async(Table(map[], {}, 0), [], [], []), {})
  }

  ghost predicate Inv(s: State) {
    var table := s.async.shared;
    && s.loaded <= s.total && s.total <= TASK_ID_MAX && table.id == s.loaded
    && (forall x :: x in table.ids ==> 1 <= x <= s.loaded)
    && (forall c :: c in table.promises ==> c < s.loaded && 1 <= table.promises[c] <= s.loaded)
    && s.async.waiters == (if s.parent == Sleeping then [PARENT] else [])
    && (s.parent == Sleeping ==> table.promises != map[] || s.pending != {})
    && (s.parent != Loading ==> s.loaded == s.total)
    && (s.parent == Returned ==> table.promises == map[])
  }

  lemma TakeKeepsInv(s: State, step: Step)
    requires Inv(s) && Enabled(s, step)
    ensures Inv(Take(s, step))
  {
    match step
    case Load(newId) => NextIdIsSucc(s.async.shared.id, s.async.shared.ids, newId);
    case Erase(c) => assert c in Take(s, step).pending;
    case _ =>
  }

  ghost predicate Next(s: State, t: State) {
    exists step :: Enabled(s, step) && t == Take(s, step)
  }

  ghost predicate Run(run: seq<State>, total: nat) {
    run != [] && run[0] == Start(total) && forall i :: 0 <= i < |run| - 1 ==> Next(run[i], run[i + 1])
  }

  lemma {:induction false} RunKeepsInv(run: seq<State>, total: nat, i: nat)
    requires Run(run, total) && total <= TASK_ID_MAX && i < |run|
    ensures Inv(run[i]) && run[i].total == total
  {
    if i > 0 {
      RunKeepsInv(run, total, i - 1);
      assert Next(run[i - 1], run[i]);
      var step :| Enabled(run[i - 1], step) && run[i] == Take(run[i - 1], step);
      TakeKeepsInv(run[i - 1], step);
    }
  }

  /** The parent returns only after every child has been loaded and has unloaded; while it sleeps,
      a child is live or an unload has still to deliver. */
  lemma EveryRunWaitsForAll(run: seq<State>, total: nat, i: nat)
    requires Run(run, total) && total <= TASK_ID_MAX && i < |run|
    ensures run[i].parent == Returned ==> run[i].loaded == total && run[i].async.shared.promises == map[]
    ensures run[i].parent == Sleeping ==> run[i].async.shared.promises != map[] || run[i].pending != {}
  {
    RunKeepsInv(run, total, i);
  }

  /** No interleaving gets stuck: as long as the parent has not returned, some step can be taken. The
      bound is the one the assertion in the identifier search asks for. */
  lemma NeverStuck(run: seq<State>, total: nat, i: nat) returns (step: Step)
    requires Run(run, total) && total <= TASK_ID_MAX / 2 && i < |run| && run[i].parent != Returned
    ensures Enabled(run[i], step)
  {
    RunKeepsInv(run, total, i);
    var s := run[i];
    var table := s.async.shared;
    match s.parent
    case Loading =>
      if s.loaded < s.total {
        assert FirstFree(table.id, table.ids, table.id + 1);
        SubsetSize(table.ids, Below(s.loaded + 1) - {0});
        step := Load(table.id + 1);
      } else {
        step := EndLoad;
      }
    case Checking => step := Check;
    case Suspending => step := Suspend;
    case Woken => step := Resume;
    case Sleeping =>
      if s.pending != {} {
        var c :| c in s.pending;
        step := Deliver(c);
      } else {
        var c :| c in table.promises;
        step := Erase(c);
      }
  }

  // ---------------------------------------------------------------- every run ends

  /** Steps that children have still to take, a load counting for all of its child. */
  function ChildSteps(s: State): int {
    3 * (s.total - s.loaded) + 2 * |s.async.shared.promises| + |s.pending|
  }

  function Rank(s: State): int {
    8 * ChildSteps(s) + ParentSteps(s)
  }

  lemma TableGrows(t: Table, c: Child, newId: int)
    requires c !in t.promises
    ensures |Loaded(t, c, newId).promises| == |t.promises| + 1
  {
    assert t.promises[c := newId].Keys == t.promises.Keys + {c};
    assert |t.promises.Keys| == |t.promises| && |t.promises[c := newId].Keys| == |t.promises[c := newId]|;
  }

  lemma TableShrinks(t: Table, c: Child)
    requires c in t.promises
    ensures |Erased(t, c).promises| == |t.promises| - 1
  {
    assert (t.promises - {c}).Keys == t.promises.Keys - {c};
    assert |t.promises.Keys| == |t.promises| && |(t.promises - {c}).Keys| == |t.promises - {c}|;
  }

  lemma ChildStepsFall(s: State, step: Step)
    requires Inv(s) && Enabled(s, step)
    ensures ChildSteps(Take(s, step)) <= ChildSteps(s) - if step.Load? || step.Erase? || step.Deliver? then 1 else 0
  {
    match step
    case Load(newId) =>
      assert s.loaded !in s.async.shared.promises;
      TableGrows(s.async.shared, s.loaded, newId);
    case Erase(c) => TableShrinks(s.async.shared, c);
    case _ =>
  }

  function ParentSteps(s: State): nat {
    match s.parent
    case Loading => 6
    case Woken => 5
    case Checking => if s.async.shared.promises == map[] then 1 else 3
    case Suspending => 2
    case Sleeping => 0
    case Returned => 0
  }

  lemma ParentStepsFall(s: State, step: Step)
    requires Enabled(s, step)
    ensures ParentSteps(Take(s, step)) <= 6
    ensures !step.Load? && !step.Erase? && !step.Deliver? ==> ParentSteps(Take(s, step)) < ParentSteps(s)
  {
  }

  lemma RankFalls(s: State, step: Step)
    requires Inv(s) && Enabled(s, step)
    ensures Rank(Take(s, step)) < Rank(s)
  {
    hide Inv, Enabled, Take, ChildSteps, ParentSteps;
    ChildStepsFall(s, step);
    ParentStepsFall(s, step);
  }

  /** No run goes on for ever: with so many children none has more steps than this. As it is never stuck
      before that, the parent returns. */
  lemma {:induction false} EveryRunEnds(run: seq<State>, total: nat, i: nat)
    requires Run(run, total) && total <= TASK_ID_MAX && i < |run|
    ensures i <= 24 * total + 6 - Rank(run[i]) && Rank(run[i]) >= 0
  {
    RunKeepsInv(run, total, i);
    if i > 0 {
      EveryRunEnds(run, total, i - 1);
      RunKeepsInv(run, total, i - 1);
      assert Next(run[i - 1], run[i]);
      hide Rank, Inv;
      var step :| Enabled(run[i - 1], step) && run[i] == Take(run[i - 1], step);
      RankFalls(run[i - 1], step);
    }
    RankPositive(run[i]);
  }

  lemma RankPositive(s: State)
    requires Inv(s)
    ensures Rank(s) >= 0
  {
  }

  // ---------------------------------------------------------------- deliveries that outlast the parent

  ghost predicate Reaches(s: State, total: nat) {
    exists run :: Run(run, total) && run[|run| - 1] == s
  }

  lemma StepReached(s: State, step: Step, total: nat)
    requires Reaches(s, total) && Enabled(s, step)
    ensures Reaches(Take(s, step), total)
  {
    hide Take, Enabled;
    var run :| Run(run, total) && run[|run| - 1] == s;
    var longer := run + [Take(s, step)];
    forall i | 0 <= i < |longer| - 1 ensures Next(longer[i], longer[i + 1]) {
      if i < |run| - 1 {
        assert Next(run[i], run[i + 1]);
      } else {
        assert Next(s, Take(s, step));
      }
    }
    assert Run(longer, total);
  }

  /** Still loading after k children, all of them erased and the first not delivered yet. */
  ghost predicate AllErased(s: State, k: nat) {
    && s.parent == Loading && s.loaded == k <= s.total && InRange(s.async.shared.id)
    && s.async.shared.promises == map[] && s.async.shared.ids == {} && 0 in s.pending
  }

  lemma LoadAndErase(s: State, newId: int, total: nat) returns (r: State)
    requires Reaches(s, total) && s.parent == Loading && s.loaded < s.total
    requires s.async.shared.promises == map[] && s.async.shared.ids == {}
    requires FirstFree(s.async.shared.id, {}, newId)
    ensures Reaches(r, total) && r.total == s.total
    ensures (0 in s.pending || (s.loaded == 0 && newId != 0)) ==> AllErased(r, s.loaded + 1)
  {
    StepReached(s, Load(newId), total);
    r := Take(s, Load(newId));
    StepReached(r, Erase(s.loaded), total);
    r := Take(r, Erase(s.loaded));
    assert map[s.loaded := newId] - {s.loaded} == map[];
    assert {newId} - {newId} == {};
  }

  lemma {:induction false} ReachAllErased(total: nat, k: nat) returns (s: State)
    requires 1 <= k <= total
    ensures Reaches(s, total) && s.total == total && AllErased(s, k)
  {
    if k == 1 {
      s := Start(total);
      assert Run([s], total);
      assert Reaches(s, total);
      assert Distance(0, 1) == 1;
      s := LoadAndErase(s, 1, total);
    } else {
      s := ReachAllErased(total, k - 1);
      var id := s.async.shared.id;
      assert Distance(id, Succ(id)) == 1;
      s := LoadAndErase(s, Succ(id), total);
    }
  }

  /** Whoever unloads has been loaded. */
  lemma {:induction false} UnloadersWereLoaded(run: seq<State>, total: nat, i: nat)
    requires Run(run, total) && i < |run|
    ensures run[i].loaded <= total == run[i].total
    ensures forall c :: c in run[i].async.shared.promises || c in run[i].pending ==> c < run[i].loaded
  {
    if i > 0 {
      UnloadersWereLoaded(run, total, i - 1);
      assert Next(run[i - 1], run[i]);
      var step :| Enabled(run[i - 1], step) && run[i] == Take(run[i - 1], step);
    }
  }

  /** The parent can return, and its task object go, while an unload has still to deliver on that object:
      exactly when there is a child at all. */
  lemma ReturnsBeforeDelivery(total: nat)
    ensures (exists s, c :: Reaches(s, total) && s.parent == Returned && Enabled(s, Deliver(c))) <==> total > 0
  {
    if total > 0 {
      var s := ReachAllErased(total, total);
      StepReached(s, EndLoad, total);
      s := Take(s, EndLoad);
      StepReached(s, Check, total);
      s := Take(s, Check);
      assert s.parent == Returned && Enabled(s, Deliver(0));
    } else {
      forall s, c | Reaches(s, total) ensures !Enabled(s, Deliver(c)) {
        var run :| Run(run, total) && run[|run| - 1] == s;
        UnloadersWereLoaded(run, total, |run| - 1);
      }
    }
  }
}
