/** co_deliver: events handed to a thread's loop and resumed there. */
module Deliver {
  import opened Queues

  /** The loop thread is outside the callback, has entered it, or is resuming the list it moved out. */
  datatype Loop = Outside | Entered | Draining

  /** `signal` is the pending wake-up of the loop; any number of sends before the callback runs are one
      wake-up, and the loop clears it before running the callback. `handed` and `resumed` log. */
  datatype State<E> = State(waiting: seq<E>, signal: bool, loop: Loop, local: seq<E>, handed: seq<E>, resumed: seq<E>)

  datatype Step<E> = Call(e: E) | Wake | Move | ResumeOne | Leave

  predicate Enabled<E>(s: State<E>, step: Step<E>) {
    match step
    case Call(_) => true
    case Wake => s.loop == Outside && s.signal
    case Move => s.loop == Entered
    case ResumeOne => s.loop == Draining && s.local != []
    case Leave => s.loop == Draining && s.local == []
  }

  function Take<E>(s: State<E>, step: Step<E>): State<E>
    requires Enabled(s, step)
  {
    match step
    case Call(e) => s.(waiting := s.waiting + [e], signal := true, handed := s.handed + [e])
    case Wake => s.(signal := false, loop := Entered)
    case Move =>
      if s.waiting != [] && s.local == [] then s.(local := s.waiting, waiting := [], loop := Draining)
      else s.(loop := Draining)
    case ResumeOne => s.(local := s.local[1..], resumed := s.resumed + [s.local[0]])
    case Leave => s.(loop := Outside)
  }

  function Start<E>(): State<E> { State([], false, Outside, [], [], []) }

  ghost predicate Inv<E>(s: State<E>) {
    && s.handed == s.resumed + s.local + s.waiting
    && (s.waiting != [] ==> s.signal || s.loop == Entered)
    && (s.local != [] ==> s.loop == Draining)
  }

  lemma TakeKeepsInv<E>(s: State<E>, step: Step<E>)
    requires Inv(s) && Enabled(s, step)
    ensures Inv(Take(s, step))
  {
    var t := Take(s, step);
    match step
    case Call(e) => assert s.resumed + s.local + (s.waiting + [e]) == s.resumed + s.local + s.waiting + [e];
    case ResumeOne => assert s.local == [s.local[0]] + s.local[1..];
    case _ =>
  }

  ghost predicate Next<E(!new)>(s: State<E>, t: State<E>) {
    exists step :: Enabled(s, step) && t == Take(s, step)
  }

  ghost predicate Run<E(!new)>(run: seq<State<E>>) {
    run != [] && run[0] == Start() && forall i :: 0 <= i < |run| - 1 ==> Next(run[i], run[i + 1])
  }

  lemma {:induction false} RunKeepsInv<E(!new)>(run: seq<State<E>>, i: nat)
    requires Run(run) && i < |run|
    ensures Inv(run[i])
  {
    if i > 0 {
      RunKeepsInv(run, i - 1);
      assert Next(run[i - 1], run[i]);
      var step :| Enabled(run[i - 1], step) && run[i] == Take(run[i - 1], step);
      TakeKeepsInv(run[i - 1], step);
    }
  }

  /** Every event is resumed at most once and in the order handed over, and an event still waiting
      always has a wake-up pending or a callback that has not moved the list out yet. When the loop is
      idle with no wake-up pending, everything handed over has been resumed. */
  lemma EveryRunResumesInOrder<E(!new)>(run: seq<State<E>>, i: nat)
    requires Run(run) && i < |run|
    ensures run[i].resumed <= run[i].handed
    ensures run[i].waiting != [] ==> run[i].signal || run[i].loop == Entered
    ensures run[i].loop == Outside && !run[i].signal ==> run[i].resumed == run[i].handed
  {
    RunKeepsInv(run, i);
  }

  // ------------------------------------------------------------------ on the heap lists

  /** The two intrusive lists and the signal of one thread's co_deliver, each lock block a method. */
  class CoDeliver {
    const waiter: Queue
    const local: Queue
    var signal: bool
    var loop: Loop
    ghost var handed: seq<Queue>
    ghost var resumed: seq<Queue>

    ghost function Model(): State<Queue>
      reads this, waiter, local
    {
      State(waiter.items, signal, loop, local.items, handed, resumed)
    }

    /** The two lists are well formed and share no node. */
    ghost predicate Valid()
      reads this, waiter, local, waiter.items, local.items
    {
      && waiter.Valid() && local.Valid() && waiter != local
      && waiter !in local.items && local !in waiter.items
      && (forall q :: q in waiter.items ==> q !in local.items)
    }

    constructor ()
      ensures Valid() && Model() == Start()
    {
      waiter := new Queue();
      local := new Queue();
      signal, loop := false, Outside;
      handed, resumed := [], [];
    }

    static lemma OnTheWay(h: Queue, s: seq<Queue>, i: int)
      requires 0 <= i <= |s|
      ensures Queue.Stop(h, s, i) == h || Queue.Stop(h, s, i) in s
      ensures Queue.Stop(h, s, i + 1) == h || Queue.Stop(h, s, i + 1) in s
    {
    }

    /** __call_resume. */
    method CallResume(event: Queue)
      requires Valid() && event.Valid() && event.items == []
      requires event != waiter && event != local && event !in waiter.items && event !in local.items
      modifies this`signal, this`handed, waiter, waiter.items, event
      ensures Valid() && Model() == Take(old(Model()), Call(event))
    {
      assert forall q :: q in local.items ==> q !in waiter.items;
      waiter.PushBack(event);
      forall i | 0 <= i <= |local.items| ensures Queue.Link(local, local.items, i) {
        assert old(Queue.Link(local, local.items, i));
        OnTheWay(local, local.items, i);
      }
      signal := true;
      handed := handed + [event];
    }

    /** The locked block of __resume_ev. */
    method MoveOut()
      requires Valid() && Enabled(Model(), Move)
      modifies this`loop, waiter, waiter.items, local
      ensures Valid() && Model() == Take(old(Model()), Move)
    {
      var moved := waiter.MoveTo(local);
      loop := Draining;
    }

    /** One round of resume_all on the local list: the event comes off it before it is resumed. */
    method PopOne() returns (event: Queue?)
      requires Valid() && loop == Draining
      modifies this`resumed, this`loop, local, local.items
      ensures Valid()
      ensures Model() == Take(old(Model()), if old(local.items) == [] then Leave else ResumeOne)
      ensures event != null <==> old(local.items) != []
      ensures event != null ==> event == old(local.items)[0] && event.Valid() && event.items == []
    {
      event := local.PopFront();
      forall i | 0 <= i <= |waiter.items| ensures Queue.Link(waiter, waiter.items, i) {
        assert old(Queue.Link(waiter, waiter.items, i));
        OnTheWay(waiter, waiter.items, i);
      }
      if event == null {
        loop := Outside;
      } else {
        resumed := resumed + [event];
      }
    }
  }
}
