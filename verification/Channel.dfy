/** guard::co_channel under any number of setters, getters and non-blocking getters. */
module Channel {
  import opened GuardAsync

  /** The queue of values and each getter's destination variable. `sent` and `received` log the values
      pushed and the values handed out, in lock order; `fault` says an empty queue was popped. */
  datatype Shared<T> = Shared(data: seq<T>, slots: map<Ticket, T>, sent: seq<T>, received: seq<(Ticket, T)>,
                              fault: bool)

  function PopInto<T>(c: Shared<T>, t: Ticket): Shared<T> {
    if c.data == [] then c.(fault := true)
    else Shared(c.data[1..], c.slots[t := c.data[0]], c.sent, c.received + [(t, c.data[0])], c.fault)
  }

  function Push<T>(c: Shared<T>, v: T): Shared<T> {
    c.(data := c.data + [v], sent := c.sent + [v])
  }

  /** A pop of an empty queue would be recorded. */
  lemma FaultIsSeen<T>(c: Shared<T>, t: Ticket)
    ensures c.data == [] ==> PopInto(c, t).fault
  {
  }

  /** `handed` holds the getters taken off the queue and not yet run again, `returned` what each
      finished get or try_get gave its caller. */
  datatype State<T> = State(async: Async<Shared<T>>, handed: set<Ticket>, returned: map<Ticket, T>)

  datatype Step<T> = Set(v: T) | Get(t: Ticket) | TryGet(t: Ticket) | Resume(t: Ticket)

  function SetBlock<T>(a: Async<Shared<T>>, v: T): (Async<Shared<T>>, Option<Ticket>) {
    EvBlock(a, (c: Shared<T>) => Push(c, v), PopInto)
  }

  function GetBlock<T>(a: Async<Shared<T>>, t: Ticket): (Async<Shared<T>>, bool) {
    SuspendBlock(a, t, (c: Shared<T>) => c.data == [], PopInto)
  }

  /** A ticket that no call has used yet. */
  ghost predicate Unused<T>(s: State<T>, t: Ticket) {
    t !in s.async.waiters && t !in s.async.shared.slots
  }

  ghost predicate Enabled<T>(s: State<T>, step: Step<T>) {
    match step
    case Set(_) => true
    case Get(t) => Unused(s, t)
    case TryGet(t) => Unused(s, t)
    case Resume(t) => t in s.handed
  }

  function Take<T>(s: State<T>, step: Step<T>): State<T>
    requires Enabled(s, step)
  {
    match step
    case Set(v) =>
      var (a, woken) := SetBlock(s.async, v);
      State(a, if woken.Some? then s.handed + {woken.value} else s.handed, s.returned)
    case Get(t) =>
      var (a, queued) := GetBlock(s.async, t);
      if queued || t !in a.shared.slots then State(a, s.handed, s.returned)
      else State(a, s.handed, s.returned[t := a.shared.slots[t]])
    case TryGet(t) =>
      if s.async.shared.data == [] then s
      else
        var c := PopInto(s.async.shared, t);
        State(s.async.(shared := c), s.handed, s.returned[t := c.slots[t]])
    case Resume(t) =>
      if t !in s.async.shared.slots then s
      else State(s.async, s.handed - {t}, s.returned[t := s.async.shared.slots[t]])
  }

  function Values<T>(received: seq<(Ticket, T)>): (r: seq<T>)
    ensures |r| == |received|
    ensures forall k :: 0 <= k < |r| ==> r[k] == received[k].1
  {
    seq(|received|, i requires 0 <= i < |received| => received[i].1)
  }

  /** What t was handed is in the log. */
  ghost predicate Logged<T>(received: seq<(Ticket, T)>, t: Ticket, v: T) {
    exists k :: 0 <= k < |received| && received[k] == (t, v)
  }

  ghost predicate Inv<T>(s: State<T>) {
    var c := s.async.shared;
    && !c.fault
    && Fifo(s.async)
    && (s.async.waiters != [] ==> c.data == [])
    && c.sent == Values(c.received) + c.data
    && (forall i, j :: 0 <= i < j < |s.async.waiters| ==> s.async.waiters[i] != s.async.waiters[j])
    && (forall t :: t in s.async.waiters ==> t !in c.slots)
    && (forall k :: 0 <= k < |c.received| ==> c.received[k].0 in c.slots && c.slots[c.received[k].0] == c.received[k].1)
    && (forall j, k :: 0 <= j < k < |c.received| ==> c.received[j].0 != c.received[k].0)
    && (forall t :: t in c.slots ==> Logged(c.received, t, c.slots[t]))
    && (forall t :: t in c.slots <==> t in s.handed || t in s.returned)
    && (forall t :: t in s.handed ==> t !in s.returned)
    && (forall t :: t in s.returned ==> s.returned[t] == c.slots[t])
  }

  function Start<T>(): State<T> {
    State(Async(Shared([], map[], [], [], false), [], [], []), {}, map[])
  }

  lemma LogGrows<T>(c: Shared<T>, d: Shared<T>, t: Ticket, v: T)
    requires forall x :: x in c.slots ==> Logged(c.received, x, c.slots[x])
    requires d.received == c.received + [(t, v)] && d.slots == c.slots[t := v] && t !in c.slots
    ensures forall x :: x in d.slots ==> Logged(d.received, x, d.slots[x])
  {
    forall x | x in d.slots ensures Logged(d.received, x, d.slots[x]) {
      if x == t {
        assert d.received[|c.received|] == (t, v);
      } else {
        var k :| 0 <= k < |c.received| && c.received[k] == (x, c.slots[x]);
        assert d.received[k] == (x, d.slots[x]);
      }
    }
  }

  lemma SetKeepsInv<T>(s: State<T>, v: T)
    requires Inv(s)
    ensures Inv(Take(s, Set(v)))
  {
    var a := s.async;
    var t := Take(s, Set(v));
    BlocksKeepFifo(a, 0, (c: Shared<T>) => c.data == [], (c: Shared<T>) => Push(c, v), PopInto);
    if a.waiters != [] {
      var w := a.waiters[0];
      var c := PopInto(Push(a.shared, v), w);
      assert t.async.shared == c;
      assert w in a.waiters;
      assert Values(c.received) == Values(a.shared.received) + [v];
      LogGrows(a.shared, c, w, v);
      assert forall x :: x in a.waiters[1..] ==> x in a.waiters;
    } else {
      assert t.async.shared == Push(a.shared, v);
    }
  }

  lemma PopKeepsInv<T>(s: State<T>, t: Ticket)
    requires Inv(s) && Unused(s, t) && s.async.shared.data != []
    ensures Inv(State(s.async.(shared := PopInto(s.async.shared, t)), s.handed,
                      s.returned[t := s.async.shared.data[0]]))
  {
    var c, d := s.async.shared, PopInto(s.async.shared, t);
    assert Values(d.received) == Values(c.received) + [c.data[0]];
    assert c.data == [c.data[0]] + c.data[1..];
    LogGrows(c, d, t, c.data[0]);
  }

  lemma TakeKeepsInv<T>(s: State<T>, step: Step<T>)
    requires Inv(s) && Enabled(s, step)
    ensures Inv(Take(s, step))
  {
    match step
    case Set(v) => SetKeepsInv(s, v);
    case Get(t) =>
      BlocksKeepFifo(s.async, t, (c: Shared<T>) => c.data == [], (c: Shared<T>) => c, PopInto);
      if s.async.shared.data != [] {
        PopKeepsInv(s, t);
      }
    case TryGet(t) =>
      if s.async.shared.data != [] {
        PopKeepsInv(s, t);
      }
    case Resume(t) =>
  }

  ghost predicate Next<T(!new)>(s: State<T>, t: State<T>) {
    exists step :: Enabled(s, step) && t == Take(s, step)
  }

  ghost predicate Run<T(!new)>(run: seq<State<T>>) {
    run != [] && run[0] == Start() && forall i :: 0 <= i < |run| - 1 ==> Next(run[i], run[i + 1])
  }

  lemma {:induction false} RunKeepsInv<T(!new)>(run: seq<State<T>>, i: nat)
    requires Run(run) && i < |run|
    ensures Inv(run[i])
  {
    if i > 0 {
      RunKeepsInv(run, i - 1);
      assert Next(run[i - 1], run[i]);
      var step :| Enabled(run[i - 1], step) && run[i] == Take(run[i - 1], step);
      TakeKeepsInv(run[i - 1], step);
    }
  }

  /** Nobody waits while data is queued; the k-th value handed out, in lock order, is the k-th value
      set, so nothing is lost, duplicated or reordered; what a call returns is the value it was handed,
      and no two calls are handed the same one; waiters are served in arrival order; and no pop has met
      an empty queue. */
  ghost predicate InOrder<T>(s: State<T>) {
    var c := s.async.shared;
    && !c.fault
    && (s.async.waiters != [] ==> c.data == [])
    && |c.received| + |c.data| == |c.sent|
    && (forall k :: 0 <= k < |c.received| ==> c.received[k].1 == c.sent[k])
    && (forall k :: 0 <= k < |c.data| ==> c.data[k] == c.sent[|c.received| + k])
    && (forall t :: t in s.returned ==> Logged(c.received, t, s.returned[t]))
    && (forall j, k :: 0 <= j < k < |c.received| ==> c.received[j].0 != c.received[k].0)
    && s.async.arrived == s.async.served + s.async.waiters
  }

  lemma InvIsInOrder<T>(s: State<T>)
    requires Inv(s)
    ensures InOrder(s)
  {
    var c := s.async.shared;
    assert |c.sent| == |Values(c.received)| + |c.data|;
    forall k | 0 <= k < |c.received| ensures c.received[k].1 == c.sent[k] {
      assert c.sent[k] == Values(c.received)[k];
    }
  }

  /** What get and try_get do: on queued values both return the first at once, on an empty queue get waits
      in line and try_get answers nothing. */
  lemma GetsFirst<T>(s: State<T>, t: Ticket)
    requires Inv(s) && Unused(s, t)
    ensures Enabled(s, Get(t)) && Enabled(s, TryGet(t))
    ensures var c := s.async.shared;
            var got, tried := Take(s, Get(t)), Take(s, TryGet(t));
            if c.data != [] then
              && got == tried && t in got.returned && got.returned[t] == c.data[0]
              && got.async.shared.data == c.data[1..] && got.async.waiters == s.async.waiters
            else
              && tried == s && t !in got.returned && got.async.shared == c && got.async.waiters == s.async.waiters + [t]
  {
  }

  /** What set does: the first waiter, if any, is handed the value and can go on; otherwise the value is
      queued last. */
  lemma SetServesFirst<T>(s: State<T>, v: T)
    requires Inv(s)
    ensures Enabled(s, Set(v))
    ensures var c, after := s.async.shared, Take(s, Set(v));
            if s.async.waiters != [] then
              var w := s.async.waiters[0];
              && after.async.waiters == s.async.waiters[1..] && after.async.shared.data == []
              && Enabled(after, Resume(w)) && w in Take(after, Resume(w)).returned
              && Take(after, Resume(w)).returned[w] == v
            else after.async.shared.data == c.data + [v] && after.async.waiters == [] && after.handed == s.handed
  {
    if s.async.waiters != [] {
      var after := Take(s, Set(v));
      assert s.async.shared.data == [];
      assert after.async.shared.slots[s.async.waiters[0]] == v;
    }
  }

  /** Every state of every interleaving of set, get and try_get is in order. */
  lemma EveryRunDeliversInOrder<T(!new)>(run: seq<State<T>>, i: nat)
    requires Run(run) && i < |run|
    ensures InOrder(run[i])
  {
    RunKeepsInv(run, i);
    InvIsInOrder(run[i]);
  }
}
