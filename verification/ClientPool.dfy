/** client_pool's per-thread pool: the coroutines of one thread calling get and releasing clients. A
    step runs from one suspension point to the next. */
module ClientPool {
  import opened GuardAsync

  type Client = nat

  datatype Phase =
    | Outside
    | AtHead                      // about to run the loop of get_cli from its head
    | Creating(left: nat)         // awaiting create, with so many attempts left
    | RetrySleep(left: nat)       // asleep after a failed attempt
    | QuickSleep                  // asleep after finding an idle client closed
    | Waiting                     // in m_waiter
    | Holding(client: Client)     // get_cli has returned an instance

  datatype Config = Config(maxConnections: nat, retryCount: nat)

  datatype State = State(connected: int, connecting: int, used: int, idle: seq<Client>, waiters: seq<Ticket>,
                         phases: map<Ticket, Phase>)

  datatype Step =
    | Call(t: Ticket)
    | Head(t: Ticket, open: bool)           // `open`: whether the client popped, if any, is still connected
    | Created(t: Ticket, client: Client) | CreateFailed(t: Ticket)
    | RetryWake(t: Ticket) | QuickWake(t: Ticket)
    | Release(t: Ticket)

  function PhaseOf(s: State, t: Ticket): Phase {
    if t in s.phases then s.phases[t] else Outside
  }

  function At(s: State, t: Ticket, p: Phase): State { s.(phases := s.phases[t := p]) }

  /** An existing client: idle or held by somebody. */
  ghost predicate Exists(s: State, client: Client) {
    client in s.idle || exists t :: PhaseOf(s, t) == Holding(client)
  }

  ghost predicate Enabled(s: State, step: Step) {
    match step
    case Call(t) => PhaseOf(s, t).Outside?
    case Head(t, _) => PhaseOf(s, t).AtHead?
    case Created(t, client) => PhaseOf(s, t).Creating? && !Exists(s, client)
    case CreateFailed(t) => PhaseOf(s, t).Creating?
    case RetryWake(t) => PhaseOf(s, t).RetrySleep?
    case QuickWake(t) => PhaseOf(s, t).QuickSleep?
    case Release(t) => PhaseOf(s, t).Holding?
  }

  /** Every client is in use and no more may be created. */
  predicate MustWait(c: Config, s: State) {
    s.used == s.connected && c.maxConnections == s.connected + s.connecting
  }

  function LoopHead(c: Config, s: State, t: Ticket, open: bool): State {
    if c.maxConnections == 0 then At(s, t, Outside)
    else if MustWait(c, s) then At(s, t, Waiting).(waiters := s.waiters + [t])
    else if s.connected + s.connecting < c.maxConnections then
      if c.retryCount > 0 then At(s, t, Creating(c.retryCount)).(connecting := s.connecting + 1)
      else At(s, t, Outside)
    else if s.idle == [] then s
    else
      var rest := s.(idle := s.idle[1..]);
      if open then At(rest, t, Holding(s.idle[0])).(used := s.used + 1)
      else At(rest, t, QuickSleep).(connected := if s.connected > 0 then s.connected - 1 else s.connected)
  }

  ghost function Take(c: Config, s: State, step: Step): State
    requires Enabled(s, step)
  {
    match step
    case Call(t) => At(s, t, AtHead)
    case Head(t, open) => LoopHead(c, s, t, open)
    case Created(t, client) =>
      At(s, t, Holding(client)).(connected := s.connected + 1, used := s.used + 1, connecting := s.connecting - 1)
    case CreateFailed(t) => At(s, t, RetrySleep(s.phases[t].left))
    case RetryWake(t) =>
      var left := s.phases[t].left;
      if left > 1 then At(s, t, Creating(left - 1)) else At(s, t, Outside).(connecting := s.connecting - 1)
    case QuickWake(t) => At(s, t, AtHead)
    case Release(t) =>
      var released := At(s, t, Outside).(idle := s.idle + [s.phases[t].client], used := s.used - 1);
      if s.waiters == [] then released else At(released, s.waiters[0], AtHead).(waiters := s.waiters[1..])
  }

  predicate Connecting(p: Phase) { p.Creating? || p.RetrySleep? }

  predicate Using(p: Phase) { p.Holding? }

  function Those(phases: map<Ticket, Phase>, p: Phase -> bool): set<Ticket> {
    set t | t in phases && p(phases[t])
  }

  lemma ThoseUpdate(phases: map<Ticket, Phase>, p: Phase -> bool, t: Ticket, q: Phase)
    ensures |Those(phases[t := q], p)| ==
      |Those(phases, p)| - (if t in phases && p(phases[t]) then 1 else 0) + if p(q) then 1 else 0
  {
    var rest := Those(phases, p) - {t};
    assert Those(phases, p) == if t in phases && p(phases[t]) then rest + {t} else rest;
    assert Those(phases[t := q], p) == if p(q) then rest + {t} else rest;
  }

  /** The counters are the true counts: of instances held, of coroutines inside a creation, and of
      connections used or idle; and connections never exceed the maximum. */
  ghost predicate Inv(c: Config, s: State) {
    && s.used == |Those(s.phases, Using)|
    && s.connecting == |Those(s.phases, Connecting)|
    && s.used + |s.idle| == s.connected
    && s.connected + s.connecting <= c.maxConnections
    && (forall t :: t in s.waiters <==> PhaseOf(s, t).Waiting?)
    && (forall i, j :: 0 <= i < j < |s.waiters| ==> s.waiters[i] != s.waiters[j])
  }

  /** Every client is idle once or held by one coroutine. */
  ghost predicate Exclusive(s: State) {
    && (forall i, j :: 0 <= i < j < |s.idle| ==> s.idle[i] != s.idle[j])
    && (forall t :: PhaseOf(s, t).Holding? ==> PhaseOf(s, t).client !in s.idle)
    && (forall t, u :: PhaseOf(s, t).Holding? && PhaseOf(s, u).Holding? && PhaseOf(s, t).client == PhaseOf(s, u).client
          ==> t == u)
  }

  const START := State(0, 0, 0, [], [], map[])

  lemma PhaseUpdate(s: State, t: Ticket, q: Phase)
    ensures |Those(At(s, t, q).phases, Using)| ==
      |Those(s.phases, Using)| - (if Using(PhaseOf(s, t)) then 1 else 0) + if Using(q) then 1 else 0
    ensures |Those(At(s, t, q).phases, Connecting)| ==
      |Those(s.phases, Connecting)| - (if Connecting(PhaseOf(s, t)) then 1 else 0) + if Connecting(q) then 1 else 0
  {
    ThoseUpdate(s.phases, Using, t, q);
    ThoseUpdate(s.phases, Connecting, t, q);
  }

  lemma ReleaseKeepsInv(c: Config, s: State, t: Ticket)
    requires Inv(c, s) && Enabled(s, Release(t))
    ensures Inv(c, Take(c, s, Release(t)))
  {
    PhaseUpdate(s, t, Outside);
    var released := At(s, t, Outside);
    if s.waiters != [] {
      var w := s.waiters[0];
      assert w in s.waiters;
      PhaseUpdate(released, w, AtHead);
      var after := Take(c, s, Release(t));
      forall x ensures x in after.waiters <==> PhaseOf(after, x).Waiting? {
        assert x in s.waiters <==> x == w || x in s.waiters[1..];
      }
    }
  }

  lemma TakeKeepsInv(c: Config, s: State, step: Step)
    requires Inv(c, s) && Enabled(s, step)
    ensures Inv(c, Take(c, s, step))
  {
    var after := Take(c, s, step);
    if step.Release? {
      ReleaseKeepsInv(c, s, step.t);
    } else {
      PhaseUpdate(s, step.t, PhaseOf(after, step.t));
      assert after.phases == s.phases || after.phases == s.phases[step.t := PhaseOf(after, step.t)];
    }
  }

  ghost predicate Next(c: Config, s: State, t: State) {
    exists step :: Enabled(s, step) && t == Take(c, s, step)
  }

  ghost predicate Run(c: Config, run: seq<State>) {
    run != [] && run[0] == START && forall i :: 0 <= i < |run| - 1 ==> Next(c, run[i], run[i + 1])
  }

  lemma {:induction false} RunKeepsInv(c: Config, run: seq<State>, i: nat)
    requires Run(c, run) && i < |run|
    ensures Inv(c, run[i])
  {
    if i > 0 {
      RunKeepsInv(c, run, i - 1);
      assert Next(c, run[i - 1], run[i]);
      var step :| Enabled(run[i - 1], step) && run[i] == Take(c, run[i - 1], step);
      TakeKeepsInv(c, run[i - 1], step);
    }
  }

  /** At every suspension point of every run the counters are the true counts: of instances held, of
      coroutines inside a creation, and of connections held or idle; and the maximum is kept. */
  lemma EveryRunCounts(c: Config, run: seq<State>, i: nat)
    requires Run(c, run) && i < |run|
    ensures run[i].used == |Those(run[i].phases, Using)|
    ensures run[i].connecting == |Those(run[i].phases, Connecting)|
    ensures run[i].used + |run[i].idle| == run[i].connected
    ensures run[i].connected + run[i].connecting <= c.maxConnections
  {
    RunKeepsInv(c, run, i);
  }

  /** In every run the pop in get_cli finds a client whenever its branch is taken, the counters never go
      below zero when they are decremented, and release finds m_used positive. */
  lemma NoUnderflow(c: Config, run: seq<State>, i: nat)
    requires Run(c, run) && i < |run|
    ensures c.maxConnections > 0 && run[i].connected + run[i].connecting >= c.maxConnections ==>
              (run[i].used == run[i].connected && run[i].connected + run[i].connecting == c.maxConnections)
              || (run[i].idle != [] && run[i].connected > 0)
    ensures forall t :: PhaseOf(run[i], t).Holding? ==> run[i].used > 0
    ensures forall t :: Connecting(PhaseOf(run[i], t)) ==> run[i].connecting > 0
    ensures 0 <= run[i].used <= run[i].connected && 0 <= run[i].connecting
  {
    RunKeepsInv(c, run, i);
    forall t | PhaseOf(run[i], t).Holding? ensures run[i].used > 0 {
      assert t in Those(run[i].phases, Using);
    }
    forall t | Connecting(PhaseOf(run[i], t)) ensures run[i].connecting > 0 {
      assert t in Those(run[i].phases, Connecting);
    }
  }

  // ---------------------------------------------------------------- who gets a client, and who gives up

  /** Only t's phase changes, and the idle clients lose their first or gain one that t gave up. */
  lemma ExclusiveKept(s: State, after: State, t: Ticket)
    requires Exclusive(s)
    requires forall u :: u != t && PhaseOf(after, u).Holding? ==> PhaseOf(after, u) == PhaseOf(s, u)
    requires PhaseOf(after, t).Holding? ==> PhaseOf(after, t) == PhaseOf(s, t)
    requires after.idle == s.idle || (s.idle != [] && after.idle == s.idle[1..]) ||
             (PhaseOf(s, t).Holding? && !PhaseOf(after, t).Holding? && after.idle == s.idle + [PhaseOf(s, t).client])
    ensures Exclusive(after)
  {
    assert s.idle != [] ==> forall x :: x in s.idle[1..] ==> x in s.idle;
  }

  lemma ExclusiveTaken(s: State, after: State, t: Ticket)
    requires Exclusive(s) && PhaseOf(after, t).Holding?
    requires forall u :: u != t ==> PhaseOf(after, u) == PhaseOf(s, u)
    requires var client := PhaseOf(after, t).client;
             || (s.idle != [] && client == s.idle[0] && after.idle == s.idle[1..])
             || (!Exists(s, client) && after.idle == s.idle)
    ensures Exclusive(after)
  {
    var client := PhaseOf(after, t).client;
    forall u | u != t && PhaseOf(s, u).Holding? ensures PhaseOf(s, u).client != client {
      assert PhaseOf(s, u) == Holding(PhaseOf(s, u).client);
      assert s.idle != [] ==> s.idle[0] in s.idle;
    }
    assert s.idle != [] ==> forall x :: x in s.idle[1..] ==> x in s.idle;
  }

  lemma TakeKeepsExclusive(c: Config, s: State, step: Step)
    requires Inv(c, s) && Exclusive(s) && Enabled(s, step)
    ensures Exclusive(Take(c, s, step))
  {
    var after := Take(c, s, step);
    if step.Release? && s.waiters != [] {
      assert s.waiters[0] in s.waiters;
    }
    hide Exclusive, Inv, Exists;
    if PhaseOf(after, step.t).Holding? {
      ExclusiveTaken(s, after, step.t);
    } else {
      ExclusiveKept(s, after, step.t);
    }
  }

  /** In every run no instance is held by two coroutines, or held and idle. */
  lemma {:induction false} EveryRunExclusive(c: Config, run: seq<State>, i: nat)
    requires Run(c, run) && i < |run|
    ensures Exclusive(run[i])
  {
    if i > 0 {
      EveryRunExclusive(c, run, i - 1);
      RunKeepsInv(c, run, i - 1);
      assert Next(c, run[i - 1], run[i]);
      hide Inv, Exclusive, Enabled, Take;
      var step :| Enabled(run[i - 1], step) && run[i] == Take(c, run[i - 1], step);
      TakeKeepsExclusive(c, run[i - 1], step);
    }
  }

  /** What a coroutine at the head of get_cli's loop gets. With every connection in use and none left to
      create it waits, last in the queue. With room it starts a creation, which hands it the new client
      when it succeeds. Otherwise it takes the first idle client, if that is still open; a closed one is
      dropped, and the coroutine comes back to the head. */
  lemma HeadServes(c: Config, s: State, t: Ticket, open: bool, client: Client)
    requires Inv(c, s) && PhaseOf(s, t) == AtHead && c.maxConnections > 0 && c.retryCount > 0
    ensures Enabled(s, Head(t, open))
    ensures var h := Take(c, s, Head(t, open));
            if s.used == s.connected && s.connected + s.connecting == c.maxConnections then
              h == s.(phases := s.phases[t := Waiting], waiters := s.waiters + [t])
            else if s.connected + s.connecting < c.maxConnections then
              && PhaseOf(h, t) == Creating(c.retryCount) && h.connecting == s.connecting + 1
              && (!Exists(s, client) ==>
                  && Enabled(h, Created(t, client))
                  && Take(c, h, Created(t, client)) == s.(phases := s.phases[t := Holding(client)],
                                                          connected := s.connected + 1, used := s.used + 1))
            else
              && s.idle != [] && h.idle == s.idle[1..]
              && (open ==> PhaseOf(h, t) == Holding(s.idle[0]) && h.used == s.used + 1 && h.connected == s.connected)
              && (!open ==>
                    && h.used == s.used && h.connected == s.connected - 1
                    && Enabled(h, QuickWake(t)) && PhaseOf(Take(c, h, QuickWake(t)), t) == AtHead)
  {
    var h := Take(c, s, Head(t, open));
    if s.connected + s.connecting < c.maxConnections && !Exists(s, client) {
      forall u ensures PhaseOf(h, u) != Holding(client) {
        assert u != t ==> PhaseOf(h, u) == PhaseOf(s, u);
      }
      assert h.phases[t := Holding(client)] == s.phases[t := Holding(client)];
    }
  }

  /** A call starts at the head of the loop. A failed creation is tried again after a sleep as long as
      attempts are left, and otherwise the call leaves and its place is free again. */
  lemma CallsAndRetries(c: Config, s: State, t: Ticket)
    ensures PhaseOf(s, t).Outside? ==> Enabled(s, Call(t)) && PhaseOf(Take(c, s, Call(t)), t) == AtHead
    ensures PhaseOf(s, t).Creating? ==>
              && Enabled(s, CreateFailed(t))
              && var r := Take(c, s, CreateFailed(t));
              && Enabled(r, RetryWake(t)) && r.connecting == s.connecting
              && var after, left := Take(c, r, RetryWake(t)), PhaseOf(s, t).left;
              if left > 1 then PhaseOf(after, t) == Creating(left - 1) && after.connecting == s.connecting
              else PhaseOf(after, t) == Outside && after.connecting == s.connecting - 1
  {
  }

  /** A released client goes to the idle ones, and the first waiter, if any, back to the head of the loop. */
  lemma ReleaseWakesFirst(c: Config, s: State, t: Ticket)
    requires Inv(c, s) && PhaseOf(s, t).Holding?
    ensures Enabled(s, Release(t))
    ensures var after := Take(c, s, Release(t));
            && after.idle == s.idle + [PhaseOf(s, t).client] && after.used == s.used - 1
            && after.connected == s.connected && PhaseOf(after, t) == Outside
            && (s.waiters == [] ==> after.waiters == [] && forall u :: u != t ==> PhaseOf(after, u) == PhaseOf(s, u))
            && (s.waiters != [] ==> after.waiters == s.waiters[1..] && PhaseOf(after, s.waiters[0]) == AtHead)
  {
    if s.waiters != [] {
      assert s.waiters[0] in s.waiters;
    }
  }

  /** A run with the steps taken. */
  ghost predicate Trace(c: Config, run: seq<State>, steps: seq<Step>) {
    && |run| == |steps| + 1 && run[0] == START
    && forall i :: 0 <= i < |steps| ==> Enabled(run[i], steps[i]) && run[i + 1] == Take(c, run[i], steps[i])
  }

  lemma {:induction false} RunHasTrace(c: Config, run: seq<State>) returns (steps: seq<Step>)
    requires Run(c, run)
    ensures Trace(c, run, steps)
    decreases |run|
  {
    var n := |run| - 1;
    if n == 0 {
      steps := [];
    } else {
      assert Next(c, run[n - 1], run[n]);
      assert forall i :: 0 <= i < n - 1 ==> Next(c, run[..n][i], run[..n][i + 1]) by {
        assert forall i :: 0 <= i < n - 1 ==> Next(c, run[i], run[i + 1]);
      }
      var front := RunHasTrace(c, run[..n]);
      var step :| Enabled(run[n - 1], step) && run[n] == Take(c, run[n - 1], step);
      hide Enabled, Take, Next;
      steps := front + [step];
      forall i | 0 <= i < |steps| ensures Enabled(run[i], steps[i]) && run[i + 1] == Take(c, run[i], steps[i]) {
        if i < n - 1 {
          assert Enabled(run[..n][i], front[i]) && run[..n][i + 1] == Take(c, run[..n][i], front[i]);
        }
      }
    }
  }

  /** How many creations have failed for t since it was last at the head of the loop. */
  function Failures(steps: seq<Step>, t: Ticket): nat {
    if steps == [] then 0
    else
      var before, last := Failures(steps[..|steps| - 1], t), steps[|steps| - 1];
      if last == CreateFailed(t) then before + 1
      else if last.Head? && last.t == t then 0
      else before
  }

  ghost predicate FailuresCounted(c: Config, p: Phase, failures: nat) {
    && (p.Creating? ==> 1 <= p.left && failures + p.left == c.retryCount)
    && (p.RetrySleep? ==> 1 <= p.left && failures + p.left == c.retryCount + 1)
  }

  lemma {:induction false} TraceCounts(c: Config, run: seq<State>, steps: seq<Step>, i: nat, t: Ticket)
    requires Trace(c, run, steps) && i < |run|
    ensures FailuresCounted(c, PhaseOf(run[i], t), Failures(steps[..i], t))
  {
    if i > 0 {
      TraceCounts(c, run, steps, i - 1, t);
      assert steps[..i][..i - 1] == steps[..i - 1];
      var step := steps[i - 1];
      assert Enabled(run[i - 1], step) && run[i] == Take(c, run[i - 1], step);
    }
  }

  /** Exactly when a call gives up without a client: at the head of the loop when the maximum is 0, or
      when there is room but no attempt is allowed; and after a failed creation when that was the last of
      the allowed attempts. */
  lemma GivesUpExactly(c: Config, run: seq<State>, steps: seq<Step>, i: nat, t: Ticket)
    requires Trace(c, run, steps) && i < |steps| && !PhaseOf(run[i], t).Outside? && !PhaseOf(run[i], t).Holding?
    ensures PhaseOf(run[i + 1], t).Outside? <==>
            || (steps[i].Head? && steps[i].t == t &&
                (c.maxConnections == 0 ||
                 (c.retryCount == 0 && run[i].connected + run[i].connecting < c.maxConnections)))
            || (steps[i] == RetryWake(t) && Failures(steps[..i], t) == c.retryCount)
  {
    TraceCounts(c, run, steps, i, t);
    var step := steps[i];
    assert Enabled(run[i], step) && run[i + 1] == Take(c, run[i], step);
  }
}
