/** A guard queue, the co_events that wait in it and the co_deliver of every thread, put together: what
    becomes of a waiter from its suspend call until it goes on. */
module Handover {
  import opened GuardAsync
  import Event
  import Deliver

  type Thread = nat

  /** How far the wake-up of a ticket has come: none yet, taken off the queue, handed to the co_deliver of
      its home thread, inside its resume call, or that call is over. */
  datatype Stage = Waiting | Taken(on: Thread) | Handed | Resuming(on: Thread) | Over

  /** A waiting call: the thread it was made on, its event and its stage. */
  datatype Wait = Wait(home: Thread, event: Event.State, stage: Stage)

  /** What a thread is in the middle of: the co_await of a ticket, a deliver or resume call that has taken
      a ticket off the queue, or the resume call of an event, `handed` when its loop makes it. */
  datatype Work = Free | Awaits(t: Ticket) | Carries(t: Ticket) | Resumes(t: Ticket, handed: bool)

  /** A thread's work, its co_deliver, and the handed tickets that have gone on, in that order. */
  datatype Worker = Worker(work: Work, inbox: Deliver.State<Ticket>, gone: seq<Ticket>)

  datatype State = State(async: Async<()>, waits: map<Ticket, Wait>, workers: map<Thread, Worker>)

  /** `garbage` is what the reserved field of a new event holds, `value` what the deliver call passes on,
      if it does. A deliver call resumes the event itself on the home thread and hands it over elsewhere;
      a resume call resumes it anywhere. */
  datatype Step =
    | Suspend(t: Ticket, k: Thread, garbage: int)
    | TakeOff(k: Thread)
    | Await(k: Thread)
    | ResumeHere(k: Thread, value: Option<int>)
    | HandOver(k: Thread, value: Option<int>)
    | Resume(k: Thread)
    | Loop(k: Thread, step: Deliver.Step<Ticket>)

  function WorkerOf(s: State, k: Thread): Worker {
    if k in s.workers then s.workers[k] else Worker(Free, Deliver.Start(), [])
  }

  function Home(s: State, t: Ticket): Thread {
    if t in s.waits then s.waits[t].home else 0
  }

  predicate Enabled(s: State, step: Step) {
    var w := WorkerOf(s, step.k);
    match step
    case Suspend(t, _, _) => w.work.Free? && t !in s.waits
    case TakeOff(_) => w.work.Free?
    case Await(_) => w.work.Awaits? && w.work.t in s.waits && Event.AwaiterCanStep(s.waits[w.work.t].event)
    case ResumeHere(_, _) => w.work.Carries? && w.work.t in s.waits
    case HandOver(k, _) => w.work.Carries? && w.work.t in s.waits && Home(s, w.work.t) != k
    case Resume(_) => w.work.Resumes? && w.work.t in s.waits && Event.ResumerCanStep(s.waits[w.work.t].event)
    case Loop(_, inner) => w.work.Free? && !inner.Call? && Deliver.Enabled(w.inbox, inner)
  }

  function Put(s: State, t: Ticket, wait: Wait, k: Thread, w: Worker): State {
    s.(waits := s.waits[t := wait], workers := s.workers[k := w])
  }

  function Reserve(e: Event.State, value: Option<int>): Event.State {
    if value.Some? then e.(reserved := value.value) else e
  }

  function Keep(u: (), t: Ticket): () { u }

  function Enqueue(a: Async<()>, t: Ticket): (r: Async<()>)
    ensures r.waiters == a.waiters + [t] && r.arrived == a.arrived + [t] && r.served == a.served
  {
    SuspendBlock(a, t, (u: ()) => true, Keep).0
  }

  function Dequeue(a: Async<()>): (r: (Async<()>, Option<Ticket>))
    ensures a.waiters == [] ==> r == (a, None)
    ensures a.waiters != [] ==> r.1 == Some(a.waiters[0]) && r.0.waiters == a.waiters[1..] &&
                                r.0.arrived == a.arrived && r.0.served == a.served + [a.waiters[0]]
  {
    EvBlock(a, (u: ()) => u, Keep)
  }

  function Take(s: State, step: Step): State
    requires Enabled(s, step)
  {
    var k := step.k;
    var w := WorkerOf(s, k);
    match step
    case Suspend(t, _, garbage) =>
      var event := Event.State(Event.Init, false, garbage, Event.Ready, Event.SetReserved, 0, 0, false);
      var queued := s.(async := Enqueue(s.async, t));
      Put(queued, t, Wait(k, event, Waiting), k, w.(work := Awaits(t)))
    case TakeOff(_) =>
      var (a, taken) := Dequeue(s.async);
      if taken.Some? && taken.value in s.waits then
        var t := taken.value;
        Put(s.(async := a), t, s.waits[t].(stage := Taken(k)), k, w.(work := Carries(t)))
      else
        s.(async := a)
    case Await(_) =>
      var t := w.work.t;
      var event := Event.AwaiterStep(s.waits[t].event);
      Put(s, t, s.waits[t].(event := event), k, w.(work := if Event.AwaiterCanStep(event) then w.work else Free))
    case ResumeHere(_, value) =>
      var t := w.work.t;
      Put(s, t, s.waits[t].(event := Reserve(s.waits[t].event, value), stage := Resuming(k)),
          k, w.(work := Resumes(t, false)))
    case HandOver(_, value) =>
      var t := w.work.t;
      var to := Home(s, t);
      var left := Put(s, t, s.waits[t].(event := Reserve(s.waits[t].event, value), stage := Handed),
                      k, w.(work := Free));
      var inbox := Deliver.Take(WorkerOf(s, to).inbox, Deliver.Call(t));
      left.(workers := left.workers[to := WorkerOf(s, to).(inbox := inbox)])
    case Resume(_) =>
      var t := w.work.t;
      var event := Event.ResumerStep(s.waits[t].event, 0);
      if Event.ResumerCanStep(event) then
        Put(s, t, s.waits[t].(event := event), k, w)
      else
        Put(s, t, s.waits[t].(event := event, stage := Over),
            k, w.(work := Free, gone := if w.work.handed then w.gone + [t] else w.gone))
    case Loop(_, inner) =>
      var inbox := Deliver.Take(w.inbox, inner);
      if inner.ResumeOne? && w.inbox.local[0] in s.waits then
        var t := w.inbox.local[0];
        Put(s, t, s.waits[t].(stage := Resuming(k)), k, w.(inbox := inbox, work := Resumes(t, true)))
      else
        s.(workers := s.workers[k := w.(inbox := inbox)])
  }

  const START := State(Async((), [], [], []), map[], map[])

  // ---------------------------------------------------------------- the invariant

  /** The queue holds exactly the waiting tickets, each once. */
  ghost predicate QueueFits(a: Async<()>, waits: map<Ticket, Wait>) {
    && Fifo(a)
    && (forall t :: t in a.arrived <==> t in waits)
    && (forall t :: t in a.served ==> t in waits && waits[t].stage != Waiting)
    && (forall t :: t in a.waiters <==> t in waits && waits[t].stage == Waiting)
    && (forall i, j :: 0 <= i < j < |a.waiters| ==> a.waiters[i] != a.waiters[j])
  }

  predicate Pending(w: Worker, t: Ticket) {
    t in w.inbox.local + w.inbox.waiting
  }

  /** The event of a waiting call is sound, its resume call has begun only in its stage, and somebody is at
      work on whatever is under way. */
  ghost predicate WaitInv(s: State, t: Ticket) {
    t in s.waits &&
    var wait := s.waits[t];
    && Event.Inv(wait.event, 0)
    && (Event.AwaiterCanStep(wait.event) ==> WorkerOf(s, wait.home).work == Awaits(t))
    && match wait.stage
       case Waiting => wait.event.resumer == Event.SetReserved
       case Taken(on) => wait.event.resumer == Event.SetReserved && WorkerOf(s, on).work == Carries(t)
       case Handed => wait.event.resumer == Event.SetReserved && Pending(WorkerOf(s, wait.home), t)
       case Resuming(on) => wait.event.resumer != Event.Left &&
                            (WorkerOf(s, on).work == Resumes(t, true) || WorkerOf(s, on).work == Resumes(t, false))
       case Over => wait.event.resumer == Event.Left
  }

  /** A thread works on what its work says. */
  ghost predicate WorkFits(work: Work, k: Thread, waits: map<Ticket, Wait>) {
    match work
    case Free => true
    case Awaits(t) => t in waits && waits[t].home == k && Event.AwaiterCanStep(waits[t].event)
    case Carries(t) => t in waits && waits[t].stage == Taken(k)
    case Resumes(t, handed) => t in waits && waits[t].stage == Resuming(k) &&
                               (handed ==> waits[t].home == k && waits[t].event.awaiter == Event.Parked)
  }

  /** What is in a thread's co_deliver was handed to it, and what came out has gone on in order, except
      the one in hand. */
  ghost predicate InboxFits(w: Worker, k: Thread, waits: map<Ticket, Wait>) {
    && Deliver.Inv(w.inbox)
    && (forall i, j :: 0 <= i < j < |w.inbox.handed| ==> w.inbox.handed[i] != w.inbox.handed[j])
    && (forall t :: t in w.inbox.handed ==> t in waits && waits[t].home == k && WasHanded(waits[t].stage))
    && (forall t :: t in w.inbox.local + w.inbox.waiting ==> t in waits && waits[t].stage == Handed)
    && w.inbox.resumed == (if w.work.Resumes? && w.work.handed then w.gone + [w.work.t] else w.gone)
    && (forall t :: t in w.gone ==> t in waits && waits[t].stage == Over && waits[t].event.continued == 1)
  }

  predicate WasHanded(stage: Stage) {
    !stage.Waiting? && !stage.Taken?
  }

  ghost predicate Inv(s: State) {
    && QueueFits(s.async, s.waits)
    && (forall t :: t in s.waits ==> WaitInv(s, t))
    && (forall k: Thread :: WorkFits(WorkerOf(s, k).work, k, s.waits))
    && (forall k: Thread :: InboxFits(WorkerOf(s, k), k, s.waits))
  }

  // ---------------------------------------------------------------- the queue

  lemma QueueFirst(a: Async<()>, waits: map<Ticket, Wait>)
    requires QueueFits(a, waits) && a.waiters != []
    ensures a.waiters[0] in waits && waits[a.waiters[0]].stage == Waiting
  {
    assert a.waiters[0] in a.waiters;
  }

  lemma QueueUnseen(a: Async<()>, waits: map<Ticket, Wait>, t: Ticket, now: Wait)
    requires QueueFits(a, waits) && t in waits && (waits[t].stage == Waiting <==> now.stage == Waiting)
    ensures QueueFits(a, waits[t := now])
  {
  }

  lemma QueueIn(a: Async<()>, waits: map<Ticket, Wait>, t: Ticket, now: Wait)
    requires QueueFits(a, waits) && t !in waits && now.stage == Waiting
    ensures QueueFits(Enqueue(a, t), waits[t := now])
  {
  }

  lemma QueueOut(a: Async<()>, waits: map<Ticket, Wait>, now: Wait)
    requires QueueFits(a, waits) && a.waiters != [] && now.stage != Waiting
    ensures QueueFits(Dequeue(a).0, waits[a.waiters[0] := now])
  {
    var first := a.waiters[0];
    var after := Dequeue(a).0;
    hide Dequeue;
    forall t ensures t in after.waiters <==> t in waits && t != first && waits[t].stage == Waiting {
      assert t in a.waiters <==> t == first || t in a.waiters[1..];
    }
  }

  // ---------------------------------------------------------------- tickets and work that a step is not about

  ghost predicate About(work: Work, t: Ticket) {
    !work.Free? && work.t == t
  }

  /** Whatever w does for t, v still does. */
  ghost predicate Minds(w: Worker, v: Worker, t: Ticket) {
    (About(w.work, t) ==> v.work == w.work) && (Pending(w, t) ==> Pending(v, t))
  }

  lemma WaitMinded(s: State, r: State, t: Ticket)
    requires WaitInv(s, t) && t in r.waits && r.waits[t] == s.waits[t]
    requires forall j: Thread :: Minds(WorkerOf(s, j), WorkerOf(r, j), t)
    ensures WaitInv(r, t)
  {
    hide WorkerOf, Event.Inv, Event.AwaiterCanStep, Pending;
    var wait := s.waits[t];
    assert Minds(WorkerOf(s, wait.home), WorkerOf(r, wait.home), t);
    match wait.stage
    case Taken(on) => assert Minds(WorkerOf(s, on), WorkerOf(r, on), t);
    case Resuming(on) => assert Minds(WorkerOf(s, on), WorkerOf(r, on), t);
    case _ =>
  }

  /** The last step of a resume call on a parked coroutine continues it. */
  lemma ParkedGoesOn(e: Event.State)
    requires Event.Inv(e, 0) && e.awaiter == Event.Parked && Event.ResumerCanStep(e)
    ensures var r := Event.ResumerStep(e, 0);
            if Event.ResumerCanStep(r) then r.awaiter == Event.Parked else r.continued == 1
  {
  }

  // ---------------------------------------------------------------- one co_deliver at a time

  /** A change to a ticket that leaves alone what the co_deliver of its home thread knows about it. */
  ghost predicate Unseen(was: Wait, now: Wait) {
    && now.home == was.home
    && (was.event.continued == 1 ==> now.event.continued == 1)
    && (WasHanded(was.stage) ==> now.stage == was.stage || (!was.stage.Handed? && now.stage == Over))
  }

  lemma FitsUnseen(w: Worker, k: Thread, waits: map<Ticket, Wait>, t: Ticket, now: Wait)
    requires InboxFits(w, k, waits) && (t in waits ==> Unseen(waits[t], now))
    ensures InboxFits(w, k, waits[t := now])
  {
    HandedHas(w, k, waits);
  }

  lemma HandedHas(w: Worker, k: Thread, waits: map<Ticket, Wait>)
    requires InboxFits(w, k, waits)
    ensures forall t :: t in w.inbox.handed <==> t in w.inbox.resumed || t in w.inbox.local || t in w.inbox.waiting
    ensures forall t :: t in w.gone ==> t in w.inbox.resumed
  {
  }

  lemma FitsElsewhere(w: Worker, k: Thread, waits: map<Ticket, Wait>, t: Ticket, now: Wait)
    requires InboxFits(w, k, waits) && (t in waits ==> waits[t].home != k)
    ensures InboxFits(w, k, waits[t := now])
  {
    HandedHas(w, k, waits);
    assert t !in w.inbox.handed;
  }

  lemma FitsWork(w: Worker, k: Thread, waits: map<Ticket, Wait>, work: Work)
    requires InboxFits(w, k, waits) && !(w.work.Resumes? && w.work.handed) && !(work.Resumes? && work.handed)
    ensures InboxFits(w.(work := work), k, waits)
  {
  }

  lemma FitsCall(w: Worker, k: Thread, waits: map<Ticket, Wait>, t: Ticket, now: Wait)
    requires InboxFits(w, k, waits) && t in waits && !WasHanded(waits[t].stage)
    requires now.home == k && now.stage == Handed
    ensures InboxFits(w.(inbox := Deliver.Take(w.inbox, Deliver.Call(t))), k, waits[t := now])
  {
    HandedHas(w, k, waits);
    Deliver.TakeKeepsInv(w.inbox, Deliver.Call(t));
    assert t !in w.inbox.handed;
  }

  lemma FitsGone(w: Worker, k: Thread, waits: map<Ticket, Wait>, t: Ticket, now: Wait)
    requires InboxFits(w, k, waits) && w.work == Resumes(t, true) && t in waits && waits[t].stage == Resuming(k)
    requires now.home == waits[t].home && now.stage == Over && now.event.continued == 1
    ensures InboxFits(w.(work := Free, gone := w.gone + [t]), k, waits[t := now])
  {
    HandedHas(w, k, waits);
  }

  /** What comes after the first of the list that the loop resumes is handed and differs from it. */
  lemma RestPending(w: Worker, k: Thread, waits: map<Ticket, Wait>, u: Ticket)
    requires InboxFits(w, k, waits) && w.inbox.local != [] && u in w.inbox.local[1..] + w.inbox.waiting
    ensures u != w.inbox.local[0] && u in waits && waits[u].stage == Handed
  {
    var rest := w.inbox.local[1..] + w.inbox.waiting;
    var at := |w.inbox.resumed|;
    var i :| 0 <= i < |rest| && u == rest[i];
    assert w.inbox.handed[at] == w.inbox.local[0];
    assert w.inbox.handed[at + 1 + i] == u;
    assert u in w.inbox.local + w.inbox.waiting;
  }

  lemma FitsPop(w: Worker, k: Thread, waits: map<Ticket, Wait>, now: Wait)
    requires InboxFits(w, k, waits) && w.work.Free? && Deliver.Enabled(w.inbox, Deliver.ResumeOne)
    requires w.inbox.local[0] in waits && now.home == waits[w.inbox.local[0]].home && now.stage == Resuming(k)
    ensures var t := w.inbox.local[0];
            var popped := Deliver.Take(w.inbox, Deliver.ResumeOne);
            InboxFits(w.(inbox := popped, work := Resumes(t, true)), k, waits[t := now])
  {
    HandedHas(w, k, waits);
    Deliver.TakeKeepsInv(w.inbox, Deliver.ResumeOne);
    var t := w.inbox.local[0];
    assert t in w.inbox.local + w.inbox.waiting;
    forall u | u in w.inbox.local[1..] + w.inbox.waiting ensures u != t && u in waits && waits[u].stage == Handed {
      RestPending(w, k, waits, u);
    }
    hide Deliver.Inv;
  }

  lemma FitsLoop(w: Worker, k: Thread, waits: map<Ticket, Wait>, step: Deliver.Step<Ticket>)
    requires InboxFits(w, k, waits) && Deliver.Enabled(w.inbox, step) && !step.Call? && !step.ResumeOne?
    ensures InboxFits(w.(inbox := Deliver.Take(w.inbox, step)), k, waits)
  {
    Deliver.TakeKeepsInv(w.inbox, step);
  }

  // ---------------------------------------------------------------- step by step

  /** The ticket a step is about, if any. */
  function Subject(s: State, step: Step): Option<Ticket> {
    var w := WorkerOf(s, step.k);
    match step
    case Suspend(t, _, _) => Some(t)
    case TakeOff(_) => if s.async.waiters == [] then None else Some(s.async.waiters[0])
    case Loop(_, inner) => if inner.ResumeOne? && w.inbox.local != [] then Some(w.inbox.local[0]) else None
    case _ => if w.work.Free? then None else Some(w.work.t)
  }

  /** What is known of the subject of a step. */
  ghost predicate SubjectFits(s: State, step: Step)
    requires Enabled(s, step)
  {
    var w := WorkerOf(s, step.k);
    var t := Subject(s, step);
    match step
    case Suspend(_, _, _) => true
    case TakeOff(_) => t.Some? ==> t.value in s.waits && s.waits[t.value].stage == Waiting && WaitInv(s, t.value)
    case Await(_) => s.waits[w.work.t].home == step.k
    case ResumeHere(_, _) => s.waits[w.work.t].stage == Taken(step.k)
    case HandOver(_, _) => s.waits[w.work.t].stage == Taken(step.k)
    case Resume(_) => s.waits[w.work.t].stage == Resuming(step.k)
    case Loop(_, _) => t.Some? ==> t.value in s.waits && s.waits[t.value].home == step.k &&
                                   s.waits[t.value].stage == Handed && WaitInv(s, t.value)
  }

  lemma SubjectKnown(s: State, step: Step)
    requires Inv(s) && Enabled(s, step)
    ensures SubjectFits(s, step)
    ensures WorkFits(WorkerOf(s, step.k).work, step.k, s.waits)
    ensures var t := Subject(s, step); t.Some? && t.value in s.waits ==> WaitInv(s, t.value)
  {
    var w := WorkerOf(s, step.k);
    if step.TakeOff? && s.async.waiters != [] {
      QueueFirst(s.async, s.waits);
    }
    if step.Loop? && step.step.ResumeOne? {
      FirstIsHanded(w, step.k, s.waits);
    }
    hide QueueFits, InboxFits, WaitInv;
    assert WorkFits(w.work, step.k, s.waits);
  }

  lemma FirstIsHanded(w: Worker, k: Thread, waits: map<Ticket, Wait>)
    requires InboxFits(w, k, waits) && w.inbox.local != []
    ensures var t := w.inbox.local[0]; t in waits && waits[t].home == k && waits[t].stage == Handed
  {
    HandedHas(w, k, waits);
    assert w.inbox.local[0] in w.inbox.local + w.inbox.waiting;
  }

  lemma LoopKeepsPending(w: Worker, step: Deliver.Step<Ticket>, u: Ticket)
    requires Deliver.Enabled(w.inbox, step) && !step.Call? && Pending(w, u)
    requires step.ResumeOne? ==> w.inbox.local[0] != u
    ensures Pending(w.(inbox := Deliver.Take(w.inbox, step)), u)
  {
    if step.ResumeOne? {
      assert w.inbox.local == [w.inbox.local[0]] + w.inbox.local[1..];
    }
  }

  lemma OtherMinded(s: State, step: Step, u: Ticket, j: Thread)
    requires Enabled(s, step) && SubjectFits(s, step) && Subject(s, step) != Some(u)
    ensures Minds(WorkerOf(s, j), WorkerOf(Take(s, step), j), u)
  {
    if step.Loop? && j == step.k && Pending(WorkerOf(s, j), u) {
      LoopKeepsPending(WorkerOf(s, j), step.step, u);
    }
    hide WaitInv, Event.AwaiterStep, Event.ResumerStep;
  }

  lemma OtherSame(s: State, step: Step, u: Ticket)
    requires Enabled(s, step) && SubjectFits(s, step) && Subject(s, step) != Some(u) && u in Take(s, step).waits
    ensures u in s.waits && Take(s, step).waits[u] == s.waits[u]
  {
    hide WaitInv, Event.AwaiterStep, Event.ResumerStep;
  }

  /** A step leaves alone every ticket but its subject. */
  lemma OthersKept(s: State, step: Step, u: Ticket)
    requires Inv(s) && Enabled(s, step) && u in Take(s, step).waits && Subject(s, step) != Some(u)
    ensures WaitInv(Take(s, step), u)
  {
    var r := Take(s, step);
    SubjectKnown(s, step);
    hide Take, Enabled, Subject, WaitInv, WorkFits, InboxFits, QueueFits, SubjectFits, WorkerOf, Minds;
    OtherSame(s, step, u);
    forall j: Thread ensures Minds(WorkerOf(s, j), WorkerOf(r, j), u) {
      OtherMinded(s, step, u, j);
    }
    WaitMinded(s, r, u);
  }

  lemma EventFacts(e: Event.State)
    requires Event.Inv(e, 0)
    ensures Event.ResumerCanStep(e) ==>
              && e.continued == 0
              && Event.Inv(Event.ResumerStep(e, 0), 0) && Event.ResumerStep(e, 0).resumer != Event.SetReserved
              && (Event.AwaiterCanStep(e) ==> Event.ResumerStep(e, 0).awaiter == e.awaiter)
              && (Event.AwaiterCanStep(Event.ResumerStep(e, 0)) ==> Event.AwaiterCanStep(e))
    ensures Event.AwaiterCanStep(e) ==>
              && e.continued == 0
              && Event.Inv(Event.AwaiterStep(e), 0) && Event.AwaiterStep(e).resumer == e.resumer
    ensures e.resumer == Event.SetReserved ==> forall v :: Event.Inv(e.(reserved := v), 0)
    ensures !Event.AwaiterCanStep(e) && e.resumer == Event.SetReserved ==> e.awaiter == Event.Parked
  {
  }

  lemma SuspendSubject(s: State, step: Step)
    requires Enabled(s, step) && step.Suspend?
    ensures WaitInv(Take(s, step), step.t)
  {
  }

  lemma TakeOffSubject(s: State, step: Step)
    requires Enabled(s, step) && step.TakeOff? && Subject(s, step).Some? && SubjectFits(s, step)
    requires var t := Subject(s, step).value; t in s.waits && WaitInv(s, t)
    ensures WaitInv(Take(s, step), Subject(s, step).value)
  {
    EventFacts(s.waits[Subject(s, step).value].event);
    hide Event.Inv, Event.ResumerStep, Event.AwaiterStep;
  }

  lemma AwaitSubject(s: State, step: Step)
    requires Enabled(s, step) && step.Await? && Subject(s, step).Some? && SubjectFits(s, step)
    requires var t := Subject(s, step).value; t in s.waits && WaitInv(s, t)
    ensures WaitInv(Take(s, step), Subject(s, step).value)
  {
    EventFacts(s.waits[Subject(s, step).value].event);
    hide Event.Inv, Event.ResumerStep, Event.AwaiterStep;
  }

  lemma ResumeHereSubject(s: State, step: Step)
    requires Enabled(s, step) && step.ResumeHere? && Subject(s, step).Some? && SubjectFits(s, step)
    requires var t := Subject(s, step).value; t in s.waits && WaitInv(s, t)
    ensures WaitInv(Take(s, step), Subject(s, step).value)
  {
    EventFacts(s.waits[Subject(s, step).value].event);
    hide Event.Inv, Event.ResumerStep, Event.AwaiterStep;
  }

  lemma HandOverSubject(s: State, step: Step)
    requires Enabled(s, step) && step.HandOver? && Subject(s, step).Some? && SubjectFits(s, step)
    requires var t := Subject(s, step).value; t in s.waits && WaitInv(s, t)
    ensures WaitInv(Take(s, step), Subject(s, step).value)
  {
    EventFacts(s.waits[Subject(s, step).value].event);
    hide Event.Inv, Event.ResumerStep, Event.AwaiterStep;
  }

  lemma ResumeSubject(s: State, step: Step)
    requires Enabled(s, step) && step.Resume? && Subject(s, step).Some? && SubjectFits(s, step)
    requires var t := Subject(s, step).value; t in s.waits && WaitInv(s, t)
    ensures WaitInv(Take(s, step), Subject(s, step).value)
  {
    EventFacts(s.waits[Subject(s, step).value].event);
    hide Event.Inv, Event.ResumerStep, Event.AwaiterStep;
  }

  lemma LoopSubject(s: State, step: Step)
    requires Enabled(s, step) && step.Loop? && Subject(s, step).Some? && SubjectFits(s, step)
    requires var t := Subject(s, step).value; t in s.waits && WaitInv(s, t)
    ensures WaitInv(Take(s, step), Subject(s, step).value)
  {
    EventFacts(s.waits[Subject(s, step).value].event);
    hide Event.Inv, Event.ResumerStep, Event.AwaiterStep;
  }

  /** The subject itself. */
  lemma SubjectKept(s: State, step: Step)
    requires Inv(s) && Enabled(s, step) && Subject(s, step).Some?
    ensures WaitInv(Take(s, step), Subject(s, step).value)
  {
    SubjectKnown(s, step);
    hide Take, Enabled, Subject, WaitInv, SubjectFits, Inv;
    match step
    case Suspend(_, _, _) => SuspendSubject(s, step);
    case TakeOff(_) => TakeOffSubject(s, step);
    case Await(_) => AwaitSubject(s, step);
    case ResumeHere(_, _) => ResumeHereSubject(s, step);
    case HandOver(_, _) => HandOverSubject(s, step);
    case Resume(_) => ResumeSubject(s, step);
    case Loop(_, _) => LoopSubject(s, step);
  }

  lemma WorkHere(s: State, step: Step)
    requires Enabled(s, step) && SubjectFits(s, step) && WorkFits(WorkerOf(s, step.k).work, step.k, s.waits)
    requires var t := Subject(s, step); t.Some? && t.value in s.waits ==> WaitInv(s, t.value)
    ensures WorkFits(WorkerOf(Take(s, step), step.k).work, step.k, Take(s, step).waits)
  {
    var t := Subject(s, step);
    if t.Some? && t.value in s.waits {
      EventFacts(s.waits[t.value].event);
    }
    hide Event.Inv, Event.ResumerStep, Event.AwaiterStep, Deliver.Take;
  }

  lemma WorkElsewhere(s: State, step: Step, j: Thread)
    requires Enabled(s, step) && SubjectFits(s, step) && j != step.k && WorkFits(WorkerOf(s, j).work, j, s.waits)
    requires var t := Subject(s, step); t.Some? && t.value in s.waits ==> WaitInv(s, t.value)
    ensures WorkFits(WorkerOf(Take(s, step), j).work, j, Take(s, step).waits)
  {
    var t := Subject(s, step);
    if t.Some? && t.value in s.waits {
      EventFacts(s.waits[t.value].event);
    }
    hide Event.Inv, Event.ResumerStep, Event.AwaiterStep, Deliver.Take;
  }

  lemma QueueKept(s: State, step: Step)
    requires Enabled(s, step) && SubjectFits(s, step) && QueueFits(s.async, s.waits)
    ensures QueueFits(Take(s, step).async, Take(s, step).waits)
  {
    var r := Take(s, step);
    hide QueueFits, WaitInv, Enqueue, Dequeue, Event.ResumerStep, Event.AwaiterStep, Deliver.Take;
    if step.Suspend? {
      QueueIn(s.async, s.waits, step.t, r.waits[step.t]);
    } else if Subject(s, step).Some? {
      var t := Subject(s, step).value;
      if step.TakeOff? {
        QueueOut(s.async, s.waits, r.waits[t]);
      } else {
        QueueUnseen(s.async, s.waits, t, r.waits[t]);
      }
    }
  }

  lemma HandOverInbox(s: State, step: Step, j: Thread)
    requires Enabled(s, step) && SubjectFits(s, step) && InboxFits(WorkerOf(s, j), j, s.waits) && step.HandOver?
    ensures InboxFits(WorkerOf(Take(s, step), j), j, Take(s, step).waits)
  {
    var r := Take(s, step);
    var t := WorkerOf(s, step.k).work.t;
    hide InboxFits, WaitInv, Deliver.Take;
    if j == Home(s, t) {
      FitsCall(WorkerOf(s, j), j, s.waits, t, r.waits[t]);
    } else {
      FitsUnseen(WorkerOf(s, j), j, s.waits, t, r.waits[t]);
      if j == step.k {
        FitsWork(WorkerOf(s, j), j, r.waits, Free);
      }
    }
  }

  lemma LoopInbox(s: State, step: Step, j: Thread)
    requires Enabled(s, step) && SubjectFits(s, step) && InboxFits(WorkerOf(s, j), j, s.waits) && step.Loop?
    ensures InboxFits(WorkerOf(Take(s, step), j), j, Take(s, step).waits)
  {
    var r, before := Take(s, step), WorkerOf(s, j);
    hide InboxFits, WaitInv, Deliver.Take;
    if step.step.ResumeOne? {
      var t := WorkerOf(s, step.k).inbox.local[0];
      if j == step.k {
        FitsPop(before, j, s.waits, r.waits[t]);
      } else {
        FitsElsewhere(before, j, s.waits, t, r.waits[t]);
      }
    } else if j == step.k {
      FitsLoop(before, j, s.waits, step.step);
    }
  }

  lemma OwnInbox(s: State, step: Step, j: Thread)
    requires Enabled(s, step) && SubjectFits(s, step) && InboxFits(WorkerOf(s, j), j, s.waits)
    requires !step.HandOver? && !step.Loop? && Subject(s, step).Some?
    requires WorkFits(WorkerOf(s, step.k).work, step.k, s.waits)
    requires var t := Subject(s, step).value; t in s.waits ==> WaitInv(s, t)
    ensures InboxFits(WorkerOf(Take(s, step), j), j, Take(s, step).waits)
  {
    var r := Take(s, step);
    var before, after := WorkerOf(s, j), WorkerOf(r, j);
    var t := Subject(s, step).value;
    SubjectUnseen(s, step);
    hide InboxFits, WaitInv, Unseen, Event.ResumerStep, Event.AwaiterStep, Event.Inv, Enqueue, Dequeue;
    if j == step.k && before.work == Resumes(t, true) && after.work == Free {
      FitsGone(before, j, s.waits, t, r.waits[t]);
    } else {
      FitsUnseen(before, j, s.waits, t, r.waits[t]);
      if j == step.k && before.work != after.work {
        FitsWork(before, j, r.waits, after.work);
      }
    }
  }

  lemma InboxKept(s: State, step: Step, j: Thread)
    requires Enabled(s, step) && SubjectFits(s, step) && InboxFits(WorkerOf(s, j), j, s.waits)
    requires WorkFits(WorkerOf(s, step.k).work, step.k, s.waits)
    requires var t := Subject(s, step); t.Some? && t.value in s.waits ==> WaitInv(s, t.value)
    ensures InboxFits(WorkerOf(Take(s, step), j), j, Take(s, step).waits)
  {
    if step.HandOver? {
      HandOverInbox(s, step, j);
    } else if step.Loop? {
      LoopInbox(s, step, j);
    } else if Subject(s, step).Some? {
      hide Take, Enabled, SubjectFits, InboxFits, WorkFits, WaitInv;
      OwnInbox(s, step, j);
    }
  }

  /** Except for hand-overs and pops, a step keeps what the home thread's co_deliver knows of its subject;
      and the last step of a resume call from the loop continues the coroutine. */
  lemma SubjectUnseen(s: State, step: Step)
    requires Enabled(s, step) && SubjectFits(s, step) && Subject(s, step).Some?
    requires WorkFits(WorkerOf(s, step.k).work, step.k, s.waits)
    requires var t := Subject(s, step).value; t in s.waits ==> WaitInv(s, t)
    ensures var r := Take(s, step);
            var t := Subject(s, step).value;
            && t in r.waits
            && (t in s.waits && !step.Loop? ==> Unseen(s.waits[t], r.waits[t]))
            && (step.Resume? && WorkerOf(s, step.k).work.handed && r.waits[t].stage == Over ==>
                r.waits[t].event.continued == 1)
  {
    var t := Subject(s, step).value;
    if step.Resume? && WorkerOf(s, step.k).work.handed {
      ParkedGoesOn(s.waits[t].event);
    }
    if !step.Suspend? {
      EventFacts(s.waits[t].event);
    }
    hide Event.Inv, Event.ResumerStep, Event.AwaiterStep;
  }

  lemma TakeKeepsInv(s: State, step: Step)
    requires Inv(s) && Enabled(s, step)
    ensures Inv(Take(s, step))
  {
    SubjectKnown(s, step);
    hide Take, Enabled, Subject, SubjectFits, QueueFits, WaitInv, WorkFits, InboxFits, WorkerOf;
    var r := Take(s, step);
    QueueKept(s, step);
    forall t | t in r.waits ensures WaitInv(r, t) {
      if Subject(s, step) == Some(t) {
        SubjectKept(s, step);
      } else {
        OthersKept(s, step, t);
      }
    }
    forall j: Thread ensures WorkFits(WorkerOf(r, j).work, j, r.waits) && InboxFits(WorkerOf(r, j), j, r.waits) {
      if j == step.k {
        WorkHere(s, step);
      } else {
        WorkElsewhere(s, step, j);
      }
      InboxKept(s, step, j);
    }
  }

  // ---------------------------------------------------------------- over whole runs

  ghost predicate Next(s: State, t: State) {
    exists step :: Enabled(s, step) && t == Take(s, step)
  }

  ghost predicate Run(run: seq<State>) {
    run != [] && run[0] == START && forall i :: 0 <= i < |run| - 1 ==> Next(run[i], run[i + 1])
  }

  lemma {:induction false} RunKeepsInv(run: seq<State>, i: nat)
    requires Run(run) && i < |run|
    ensures Inv(run[i])
  {
    if i > 0 {
      RunKeepsInv(run, i - 1);
      assert Next(run[i - 1], run[i]);
      hide Inv, Take, Enabled;
      var step :| Enabled(run[i - 1], step) && run[i] == Take(run[i - 1], step);
      TakeKeepsInv(run[i - 1], step);
    }
  }

  /** Whoever waits goes on at most once, and only after it has been taken off the queue, which happens in
      arrival order; no assertion of its event fails, and it reads 0, whatever value a deliver call passed
      on. */
  lemma EveryRunGoesOnOnce(run: seq<State>, i: nat, t: Ticket)
    requires Run(run) && i < |run| && t in run[i].waits
    ensures var e := run[i].waits[t].event;
            && !e.failed && e.continued <= 1
            && (e.continued == 1 ==> e.seen == 0 && t in run[i].async.served && t !in run[i].async.waiters)
    ensures run[i].async.arrived == run[i].async.served + run[i].async.waiters
  {
    var s := run[i];
    RunKeepsInv(run, i);
    assert t in s.async.arrived;
    assert WaitInv(s, t);
    hide InboxFits, WorkFits, WaitInv, WorkerOf;
    GoneIsOver(s, t);
  }

  lemma GoneIsOver(s: State, t: Ticket)
    requires WaitInv(s, t)
    ensures var e := s.waits[t].event;
            && !e.failed && e.continued <= 1
            && (e.continued == 1 ==> e.seen == 0 && s.waits[t].stage == Over)
  {
    hide WorkerOf;
  }

  /** Per thread, those handed over go on in the order in which they were handed over. */
  lemma EveryRunKeepsHandOrder(run: seq<State>, i: nat, k: Thread)
    requires Run(run) && i < |run|
    ensures var w := WorkerOf(run[i], k);
            && w.gone <= w.inbox.handed
            && (forall a, b :: 0 <= a < b < |w.inbox.handed| ==> w.inbox.handed[a] != w.inbox.handed[b])
            && (forall t :: t in w.inbox.handed ==> t in run[i].waits && run[i].waits[t].home == k)
            && (forall t :: t in w.inbox.handed ==> (t in w.gone <==> run[i].waits[t].event.continued == 1))
  {
    var s := run[i];
    RunKeepsInv(run, i);
    var w := WorkerOf(s, k);
    assert InboxFits(w, k, s.waits) && WorkFits(w.work, k, s.waits);
    HandedHas(w, k, s.waits);
    forall t | t in w.inbox.handed && s.waits[t].event.continued == 1 ensures t in w.gone {
      assert WaitInv(s, t);
      GoneIsOver(s, t);
      assert t in w.inbox.local || t in w.inbox.waiting ==> t in w.inbox.local + w.inbox.waiting;
    }
  }

  /** A free thread can start to wait with a new ticket, last in the queue. */
  lemma FreeThreadWaits(s: State, k: Thread, t: Ticket, garbage: int)
    requires WorkerOf(s, k).work == Free && t !in s.waits
    ensures Enabled(s, Suspend(t, k, garbage))
    ensures var after := Take(s, Suspend(t, k, garbage));
            && after.async.waiters == s.async.waiters + [t] && WorkerOf(after, k).work == Awaits(t)
            && t in after.waits && after.waits[t].home == k && Enabled(after, Await(k))
  {
    hide Enqueue;
  }

  lemma NothingTakenOff(s: State, k: Thread)
    requires WorkerOf(s, k).work == Free && s.async.waiters == []
    ensures Enabled(s, TakeOff(k)) && Take(s, TakeOff(k)) == s
  {
    hide Dequeue;
  }

  lemma FirstTakenOff(s: State, k: Thread)
    requires WorkerOf(s, k).work == Free && s.async.waiters != [] && s.async.waiters[0] in s.waits
    ensures Enabled(s, TakeOff(k))
    ensures var after := Take(s, TakeOff(k));
            && after.async.waiters == s.async.waiters[1..]
            && WorkerOf(after, k).work == Carries(s.async.waiters[0]) && Enabled(after, ResumeHere(k, None))
  {
    hide Dequeue;
  }

  /** And it can take off the first waiter, which it then has in hand and can resume itself. */
  lemma FreeThreadTakesOff(s: State, k: Thread)
    requires Inv(s) && WorkerOf(s, k).work == Free
    ensures Enabled(s, TakeOff(k))
    ensures var after := Take(s, TakeOff(k));
            if s.async.waiters == [] then after == s
            else
              && after.async.waiters == s.async.waiters[1..]
              && WorkerOf(after, k).work == Carries(s.async.waiters[0]) && Enabled(after, ResumeHere(k, None))
  {
    hide Take, Enabled, WorkerOf, QueueFits, WaitInv, WorkFits, InboxFits;
    if s.async.waiters == [] {
      NothingTakenOff(s, k);
    } else {
      QueueFirst(s.async, s.waits);
      FirstTakenOff(s, k);
    }
  }

  lemma InHand(s: State, k: Thread, t: Ticket)
    requires Inv(s) && WorkerOf(s, k).work == Carries(t)
    ensures t in s.waits && s.waits[t].event.resumer == Event.SetReserved
  {
    assert WorkFits(WorkerOf(s, k).work, k, s.waits);
    assert WaitInv(s, t);
    hide InboxFits, QueueFits, WorkerOf;
  }

  lemma ReservedHere(s: State, k: Thread, t: Ticket, v: int)
    requires WorkerOf(s, k).work == Carries(t) && t in s.waits && s.waits[t].event.resumer == Event.SetReserved
    ensures Enabled(s, ResumeHere(k, Some(v)))
    ensures var r := Take(s, ResumeHere(k, Some(v)));
            && t in r.waits && r.waits[t].event.reserved == v && r.waits[t].event.resumer == Event.SetReserved
            && WorkerOf(r, k).work == Resumes(t, false)
  {
  }

  lemma ResetFirst(s: State, k: Thread, t: Ticket)
    requires WorkerOf(s, k).work == Resumes(t, false) && t in s.waits
    requires s.waits[t].event.resumer == Event.SetReserved
    ensures Enabled(s, Resume(k))
    ensures t in Take(s, Resume(k)).waits && Take(s, Resume(k)).waits[t].event.reserved == 0
  {
  }

  lemma ReservedThere(s: State, k: Thread, t: Ticket, v: int)
    requires WorkerOf(s, k).work == Carries(t) && t in s.waits && s.waits[t].home != k
    ensures Enabled(s, HandOver(k, Some(v))) && t in Take(s, HandOver(k, Some(v))).waits
    ensures Take(s, HandOver(k, Some(v))).waits[t].event.reserved == v
  {
    hide Deliver.Take;
  }

  /** A value passed on is first put into the event, on either way, and overwritten with 0 as soon as the
      event is resumed. */
  lemma ValueIsOverwritten(s: State, k: Thread, t: Ticket, v: int)
    requires Inv(s) && WorkerOf(s, k).work == Carries(t)
    ensures Enabled(s, ResumeHere(k, Some(v)))
    ensures var r := Take(s, ResumeHere(k, Some(v)));
            && t in r.waits && r.waits[t].event.reserved == v && Enabled(r, Resume(k))
            && t in Take(r, Resume(k)).waits && Take(r, Resume(k)).waits[t].event.reserved == 0
    ensures t in s.waits
    ensures s.waits[t].home != k ==>
              && Enabled(s, HandOver(k, Some(v))) && t in Take(s, HandOver(k, Some(v))).waits
              && Take(s, HandOver(k, Some(v))).waits[t].event.reserved == v
  {
    hide *;
    InHand(s, k, t);
    ReservedHere(s, k, t, v);
    ResetFirst(Take(s, ResumeHere(k, Some(v))), k, t);
    if s.waits[t].home != k {
      ReservedThere(s, k, t, v);
    }
  }

  /** Where a waiter goes that a thread has just taken off the queue: a deliver call on another thread
      hands it to the co_deliver of its home thread, last in line and with a wake-up pending. */
  lemma HandOverQueues(s: State, k: Thread, t: Ticket, value: Option<int>)
    requires Inv(s) && WorkerOf(s, k).work == Carries(t) && s.waits[t].home != k
    ensures Enabled(s, HandOver(k, value))
    ensures var home := s.waits[t].home;
            var after := Take(s, HandOver(k, value));
            && WorkerOf(after, home).inbox.handed == WorkerOf(s, home).inbox.handed + [t]
            && WorkerOf(after, home).inbox.waiting == WorkerOf(s, home).inbox.waiting + [t]
            && WorkerOf(after, home).inbox.signal && WorkerOf(after, k).work == Free
  {
    assert WorkFits(WorkerOf(s, k).work, k, s.waits);
    hide WaitInv, InboxFits, QueueFits;
  }

  // ---------------------------------------------------------------- at rest

  /** A step of what is under way: nobody starts to wait and nobody is taken off the queue. */
  predicate Inner(step: Step) {
    !step.Suspend? && !step.TakeOff?
  }

  ghost predicate AtRest(s: State) {
    forall step :: Inner(step) ==> !Enabled(s, step)
  }

  lemma BusyCanStep(s: State, k: Thread) returns (step: Step)
    requires Inv(s) && !WorkerOf(s, k).work.Free?
    ensures Inner(step) && Enabled(s, step)
  {
    var work := WorkerOf(s, k).work;
    assert WorkFits(work, k, s.waits);
    assert WaitInv(s, work.t);
    match work
    case Awaits(t) => step := Await(k);
    case Carries(t) => step := ResumeHere(k, None);
    case Resumes(t, handed) => step := Resume(k);
  }

  lemma PendingCanStep(s: State, k: Thread, t: Ticket) returns (step: Step)
    requires Inv(s) && Pending(WorkerOf(s, k), t)
    ensures Inner(step) && Enabled(s, step)
  {
    var w := WorkerOf(s, k);
    if !w.work.Free? {
      step := BusyCanStep(s, k);
    } else {
      assert InboxFits(w, k, s.waits);
      match w.inbox.loop
      case Outside => step := Loop(k, Deliver.Wake);
      case Entered => step := Loop(k, Deliver.Move);
      case Draining => step := Loop(k, if w.inbox.local == [] then Deliver.Leave else Deliver.ResumeOne);
    }
  }

  /** Whoever has been taken off the queue has gone on, unless somebody is still at work on it. */
  lemma GoneOrUnderWay(s: State, t: Ticket)
    requires WaitInv(s, t) && s.waits[t].stage != Waiting && s.waits[t].event.continued != 1
    ensures var wait := s.waits[t];
            || !WorkerOf(s, wait.home).work.Free?
            || ((wait.stage.Taken? || wait.stage.Resuming?) && !WorkerOf(s, wait.stage.on).work.Free?)
            || Pending(WorkerOf(s, wait.home), t)
  {
    hide WorkerOf, Pending;
  }

  /** When nothing is under way any more, everybody taken off the queue has gone on. */
  lemma AtRestAllGone(run: seq<State>, i: nat, t: Ticket)
    requires Run(run) && i < |run| && AtRest(run[i]) && t in run[i].async.served
    ensures t in run[i].waits && run[i].waits[t].event.continued == 1
  {
    var s := run[i];
    RunKeepsInv(run, i);
    ServedNotWaiting(s.async, s.waits, t);
    assert WaitInv(s, t);
    hide WaitInv, Inv, Pending, Enabled, WorkerOf;
    var wait := s.waits[t];
    if wait.event.continued != 1 {
      GoneOrUnderWay(s, t);
      if !WorkerOf(s, wait.home).work.Free? {
        var step := BusyCanStep(s, wait.home);
        assert false;
      } else if Pending(WorkerOf(s, wait.home), t) {
        var step := PendingCanStep(s, wait.home, t);
        assert false;
      } else {
        var step := BusyCanStep(s, wait.stage.on);
        assert false;
      }
    }
  }

  lemma ServedNotWaiting(a: Async<()>, waits: map<Ticket, Wait>, t: Ticket)
    requires QueueFits(a, waits) && t in a.served
    ensures t in waits && waits[t].stage != Waiting
  {
    assert t in a.arrived;
  }

  // ---------------------------------------------------------------- rest is reached

  ghost function Sum<V>(m: map<nat, V>, weight: V -> nat): nat
    decreases |m|
  {
    if m == map[] then 0 else
    var k :| k in m;
    weight(m[k]) + Sum(m - {k}, weight)
  }

  lemma {:induction false} SumSplit<V>(m: map<nat, V>, weight: V -> nat, k: nat)
    requires k in m
    ensures Sum(m, weight) == weight(m[k]) + Sum(m - {k}, weight)
    decreases |m|
  {
    var j :| j in m && Sum(m, weight) == weight(m[j]) + Sum(m - {j}, weight);
    if j != k {
      SumSplit(m - {j}, weight, k);
      SumSplit(m - {k}, weight, j);
      assert m - {j} - {k} == m - {k} - {j};
    }
  }

  /** What a change under one key does to the sum. */
  lemma SumPut<V>(m: map<nat, V>, weight: V -> nat, k: nat, v: V)
    ensures Sum(m[k := v], weight) == Sum(m, weight) + weight(v) - if k in m then weight(m[k]) else 0
  {
    SumSplit(m[k := v], weight, k);
    assert m[k := v] - {k} == m - {k};
    if k in m {
      SumSplit(m, weight, k);
    } else {
      assert m - {k} == m;
    }
  }

  /** Steps a ticket may still take part in, a hand-over counting for the wake-up it causes. */
  function WaitWeight(w: Wait): nat {
    Event.Rank(w.event) + match w.stage case Taken(_) => 5 case Handed => 1 case _ => 0
  }

  function LoopWeight(w: Worker): nat {
    (if w.inbox.signal then 3 else 0) + match w.inbox.loop case Outside => 0 case Entered => 2 case Draining => 1
  }

  ghost function Measure(s: State): nat {
    Sum(s.waits, WaitWeight) + Sum(s.workers, LoopWeight)
  }

  lemma RankFalls(e: Event.State)
    requires Event.Inv(e, 0)
    ensures Event.AwaiterCanStep(e) ==> Event.Rank(Event.AwaiterStep(e)) < Event.Rank(e)
    ensures Event.ResumerCanStep(e) ==> Event.Rank(Event.ResumerStep(e, 0)) < Event.Rank(e)
    ensures forall v :: Event.Rank(e.(reserved := v)) == Event.Rank(e)
  {
  }

  lemma WorkersPut(s: State, k: Thread, w: Worker)
    ensures Sum(s.workers[k := w], LoopWeight) ==
            Sum(s.workers, LoopWeight) + LoopWeight(w) - LoopWeight(WorkerOf(s, k))
  {
    SumPut(s.workers, LoopWeight, k, w);
  }

  lemma PutWeighs(s: State, t: Ticket, wait: Wait, k: Thread, w: Worker)
    requires t in s.waits
    ensures Measure(Put(s, t, wait, k, w)) == Measure(s) + WaitWeight(wait) - WaitWeight(s.waits[t])
                                              + LoopWeight(w) - LoopWeight(WorkerOf(s, k))
  {
    hide WorkerOf, WaitWeight, LoopWeight;
    WorkersPut(s, k, w);
    SumPut(s.waits, WaitWeight, t, wait);
  }

  lemma LoopFalls(w: Worker, step: Deliver.Step<Ticket>)
    requires Deliver.Enabled(w.inbox, step) && !step.Call?
    ensures var inbox := Deliver.Take(w.inbox, step);
            forall work :: LoopWeight(w.(inbox := inbox, work := work)) <=
                           LoopWeight(w) - if step.ResumeOne? then 0 else 1
  {
  }

  lemma HandOverFalls(s: State, step: Step)
    requires Enabled(s, step) && step.HandOver? && SubjectFits(s, step)
    ensures Measure(Take(s, step)) < Measure(s)
  {
    var r := Take(s, step);
    var t := WorkerOf(s, step.k).work.t;
    var to := Home(s, t);
    var left := Put(s, t, r.waits[t], step.k, WorkerOf(r, step.k));
    PutWeighs(s, t, r.waits[t], step.k, WorkerOf(r, step.k));
    WorkersPut(left, to, WorkerOf(r, to));
    assert r.workers == left.workers[to := WorkerOf(r, to)];
  }

  lemma OwnFalls(s: State, step: Step)
    requires Enabled(s, step) && (step.Await? || step.ResumeHere? || step.Resume?) && SubjectFits(s, step)
    requires Event.Inv(s.waits[WorkerOf(s, step.k).work.t].event, 0)
    ensures Measure(Take(s, step)) < Measure(s)
  {
    var r := Take(s, step);
    var t := WorkerOf(s, step.k).work.t;
    RankFalls(s.waits[t].event);
    hide Event.Inv, Event.AwaiterStep, Event.ResumerStep, Event.Rank, Measure, Sum;
    PutWeighs(s, t, r.waits[t], step.k, WorkerOf(r, step.k));
  }

  lemma LoopStepFalls(s: State, step: Step)
    requires Enabled(s, step) && step.Loop? && SubjectFits(s, step)
    ensures Measure(Take(s, step)) < Measure(s)
  {
    var r, w, v := Take(s, step), WorkerOf(s, step.k), WorkerOf(Take(s, step), step.k);
    hide WaitInv, Event.Rank, Measure, Sum, Deliver.Take;
    LoopFalls(w, step.step);
    if step.step.ResumeOne? {
      PutWeighs(s, w.inbox.local[0], r.waits[w.inbox.local[0]], step.k, v);
    } else {
      LoopWeighs(s, step.k, v);
    }
  }

  lemma LoopWeighs(s: State, k: Thread, w: Worker)
    ensures Measure(s.(workers := s.workers[k := w])) == Measure(s) + LoopWeight(w) - LoopWeight(WorkerOf(s, k))
  {
    WorkersPut(s, k, w);
  }

  /** Every step of what is under way brings rest nearer. */
  lemma MeasureFalls(s: State, step: Step)
    requires Inv(s) && Enabled(s, step) && Inner(step)
    ensures Measure(Take(s, step)) < Measure(s)
  {
    SubjectKnown(s, step);
    hide Inv, SubjectFits, Measure, Take;
    if step.HandOver? {
      HandOverFalls(s, step);
    } else if step.Loop? {
      LoopStepFalls(s, step);
    } else {
      hide Event.Inv;
      OwnFalls(s, step);
    }
  }

  ghost predicate InnerNext(s: State, t: State) {
    exists step :: Inner(step) && Enabled(s, step) && t == Take(s, step)
  }

  /** Left to itself, whatever is under way comes to rest: only so many steps can follow one another in
      which nobody starts to wait and nobody is taken off the queue. */
  lemma {:induction false} EveryRunComesToRest(run: seq<State>, i: nat, n: nat)
    requires Run(run) && i + n < |run| && forall j :: i <= j < i + n ==> InnerNext(run[j], run[j + 1])
    ensures n + Measure(run[i + n]) <= Measure(run[i])
    decreases n
  {
    if n > 0 {
      EveryRunComesToRest(run, i, n - 1);
      var j := i + n - 1;
      RunKeepsInv(run, j);
      assert InnerNext(run[j], run[j + 1]);
      hide Inv, Take, Enabled, Measure, Run;
      var step :| Inner(step) && Enabled(run[j], step) && run[j + 1] == Take(run[j], step);
      MeasureFalls(run[j], step);
    }
  }
}
