/** guard::co_mutex for any number of coroutines that unlock only what they hold. */
module Mutex {
  import opened GuardAsync

  /** `Granted` is the coroutine to which an unlock has handed the lock and that has not run yet. */
  datatype Phase = Idle | Waiting | Granted | Holding

  datatype State = State(async: Async<bool>, phases: map<Ticket, Phase>)

  datatype Step = Lock(t: Ticket) | TryLock(t: Ticket) | Unlock(t: Ticket) | Resume(t: Ticket)

  function PhaseOf(s: State, t: Ticket): Phase {
    if t in s.phases then s.phases[t] else Idle
  }

  predicate Enabled(s: State, step: Step) {
    match step
    case Lock(t) => PhaseOf(s, t) == Idle
    case TryLock(t) => PhaseOf(s, t) == Idle
    case Unlock(t) => PhaseOf(s, t) == Holding
    case Resume(t) => PhaseOf(s, t) == Granted
  }

  function TurnOn(flag: bool, t: Ticket): bool { true }

  function Take(s: State, step: Step): State
    requires Enabled(s, step)
  {
    match step
    case Lock(t) =>
      var (a, queued) := SuspendBlock(s.async, t, (flag: bool) => flag, TurnOn);
      State(a, s.phases[t := if queued then Waiting else Holding])
    case TryLock(t) =>
      if s.async.shared then s else State(s.async.(shared := true), s.phases[t := Holding])
    case Unlock(t) =>
      var (a, woken) := EvBlock(s.async, (flag: bool) => false, TurnOn);
      var released := s.phases[t := Idle];
      State(a, if woken.Some? then released[woken.value := Granted] else released)
    case Resume(t) => s.(phases := s.phases[t := Holding])
  }

  /** t owns the lock: it runs inside it, or the lock has been handed to it. */
  predicate Owns(s: State, t: Ticket) {
    PhaseOf(s, t) == Granted || PhaseOf(s, t) == Holding
  }

  ghost predicate Inv(s: State) {
    && Fifo(s.async)
    && (s.async.waiters != [] ==> s.async.shared)
    && (s.async.shared <==> exists t :: Owns(s, t))
    && (forall t, u :: Owns(s, t) && Owns(s, u) ==> t == u)
    && (forall t :: t in s.async.waiters <==> PhaseOf(s, t) == Waiting)
    && (forall i, j :: 0 <= i < j < |s.async.waiters| ==> s.async.waiters[i] != s.async.waiters[j])
  }

  const START := State(Async(false, [], [], []), map[])

  lemma UnlockKeepsInv(s: State, t: Ticket)
    requires Inv(s) && Enabled(s, Unlock(t))
    ensures Inv(Take(s, Unlock(t)))
  {
    var after := Take(s, Unlock(t));
    BlocksKeepFifo(s.async, t, (flag: bool) => flag, (flag: bool) => false, TurnOn);
    assert Owns(s, t);
    forall u: Ticket | Owns(after, u) ensures s.async.waiters != [] && u == s.async.waiters[0] {
      assert Owns(s, u) ==> u == t;
    }
    if s.async.waiters != [] {
      var w := s.async.waiters[0];
      assert w in s.async.waiters && PhaseOf(s, w) == Waiting;
      assert Owns(after, w);
      forall x ensures x in after.async.waiters <==> PhaseOf(after, x) == Waiting {
        assert x in s.async.waiters <==> x == w || x in s.async.waiters[1..];
      }
    }
  }

  lemma TakeKeepsInv(s: State, step: Step)
    requires Inv(s) && Enabled(s, step)
    ensures Inv(Take(s, step))
  {
    var after := Take(s, step);
    match step
    case Lock(t) =>
      BlocksKeepFifo(s.async, t, (flag: bool) => flag, (flag: bool) => flag, TurnOn);
      if s.async.shared {
        var o :| Owns(s, o);
        assert Owns(after, o);
      } else {
        assert Owns(after, t);
      }
      forall u: Ticket | Owns(after, u) ensures Owns(s, u) || (!s.async.shared && u == t) {
        assert u != t ==> Owns(s, u);
      }
    case TryLock(t) =>
      if !s.async.shared {
        assert Owns(after, t);
        forall u: Ticket | Owns(after, u) ensures u == t {
          assert !Owns(s, u);
        }
      }
    case Unlock(t) => UnlockKeepsInv(s, t);
    case Resume(t) =>
      assert Owns(s, t);
      assert Owns(after, t);
      forall u: Ticket | Owns(after, u) ensures u == t {
        assert u != t ==> Owns(s, u);
      }
  }

  ghost predicate Next(s: State, t: State) {
    exists step :: Enabled(s, step) && t == Take(s, step)
  }

  ghost predicate Run(run: seq<State>) {
    run != [] && run[0] == START && forall i :: 0 <= i < |run| - 1 ==> Next(run[i], run[i + 1])
  }

  lemma {:induction false} RunKeepsInv(run: seq<State>, i: nat)
    requires Run(run) && i < |run|
    ensures Inv(run[i])
  {
    if i > 0 {
      RunKeepsInv(run, i - 1);
      assert Next(run[i - 1], run[i]);
      var step :| Enabled(run[i - 1], step) && run[i] == Take(run[i - 1], step);
      TakeKeepsInv(run[i - 1], step);
    }
  }

  /** In every interleaving: the flag is on exactly when somebody owns the lock, at most one coroutine
      does, somebody waits only while it is on, and waiters are granted it in arrival order. */
  lemma EveryRunExcludes(run: seq<State>, i: nat)
    requires Run(run) && i < |run|
    ensures run[i].async.shared <==> exists t :: Owns(run[i], t)
    ensures forall t, u :: Owns(run[i], t) && Owns(run[i], u) ==> t == u
    ensures forall t :: PhaseOf(run[i], t) == Waiting ==> run[i].async.shared && t in run[i].async.waiters
    ensures run[i].async.arrived == run[i].async.served + run[i].async.waiters
  {
    RunKeepsInv(run, i);
  }

  /** lock and try_lock on a free lock take it at once; on a held one lock joins the end of the queue and
      try_lock changes nothing. */
  lemma LockTakes(s: State, t: Ticket)
    requires Inv(s) && PhaseOf(s, t) == Idle
    ensures Enabled(s, Lock(t)) && Enabled(s, TryLock(t))
    ensures if exists o :: Owns(s, o) then
              && Take(s, TryLock(t)) == s
              && PhaseOf(Take(s, Lock(t)), t) == Waiting
              && Take(s, Lock(t)).async.waiters == s.async.waiters + [t]
            else
              && PhaseOf(Take(s, TryLock(t)), t) == Holding && PhaseOf(Take(s, Lock(t)), t) == Holding
              && Take(s, TryLock(t)).async.shared && Take(s, Lock(t)).async.shared
  {
  }

  /** An unlock without waiters leaves the lock free for the next to come. */
  lemma UnlockFrees(s: State, t: Ticket)
    requires Inv(s) && PhaseOf(s, t) == Holding && s.async.waiters == []
    ensures Enabled(s, Unlock(t)) && forall u :: !Owns(Take(s, Unlock(t)), u)
  {
    assert Owns(s, t);
    forall u: Ticket ensures !Owns(Take(s, Unlock(t)), u) {
      assert Owns(s, u) ==> u == t;
    }
  }

  /** The lock is never dropped while somebody waits: an unlock with waiters leaves the flag on and the
      first waiter as the owner, in one step. */
  lemma UnlockHandsOver(s: State, t: Ticket)
    requires Inv(s) && Enabled(s, Unlock(t)) && s.async.waiters != []
    ensures var after := Take(s, Unlock(t));
            var next := s.async.waiters[0];
            && after.async.shared && Owns(after, next) && !Owns(after, t)
            && after.async.waiters == s.async.waiters[1..]
            && Enabled(after, Resume(next)) && PhaseOf(Take(after, Resume(next)), next) == Holding
  {
    assert s.async.waiters[0] in s.async.waiters;
  }
}
