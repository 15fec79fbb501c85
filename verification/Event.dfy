/** co_event: one co_await against one resume(x) on the same event, every atomic operation a step. */
module Event {

  datatype Status = Init | Suspended | Resumed | Finished

  /** Where the awaiting side is: about to load the status in await_ready, to store its handle, at its
      first or second compare-and-swap, in __resume, parked, or past the co_await. */
  datatype Awaiter = Ready | Store | FirstSwap | SecondSwap | Calling | Parked | Continued

  /** Where the resuming side is: about to store x, at its first or second compare-and-swap, in
      __resume, or past the call. */
  datatype Resumer = SetReserved | TrySwap | RetrySwap | CallBack | Left

  /** `handle` says that m_caller holds the awaiting coroutine, `continued` counts how often that
      coroutine went on, `seen` is what its last await_resume read, and `failed` that an assert(false)
      was reached. */
  datatype State = State(status: Status, handle: bool, reserved: int, awaiter: Awaiter, resumer: Resumer,
                         continued: nat, seen: int, failed: bool)

  ghost predicate Start(s: State) {
    s.status == Init && !s.handle && s.awaiter == Ready && s.resumer == SetReserved && s.continued == 0 && !s.failed
  }

  /** The awaiting coroutine goes on and reads the reserved value. */
  function Continue(s: State): State {
    s.(awaiter := Continued, continued := s.continued + 1, seen := s.reserved)
  }

  /** __resume: takes the handle and continues the coroutine, or fails when there is none. */
  function CallHandle(s: State): State {
    if s.handle then Continue(s.(handle := false)) else s.(failed := true)
  }

  function AwaiterStep(s: State): State
    requires s.awaiter != Parked && s.awaiter != Continued
  {
    match s.awaiter
    case Ready => if s.status != Init then Continue(s) else s.(awaiter := Store)
    case Store => s.(handle := true, awaiter := FirstSwap)
    case FirstSwap => if s.status == Init then s.(status := Suspended, awaiter := Parked) else s.(awaiter := SecondSwap)
    case SecondSwap =>
      if s.status == Resumed then s.(status := Finished, awaiter := Calling)
      else s.(failed := true, awaiter := Parked)
    case Calling => CallHandle(s)
  }

  function ResumerStep(s: State, x: int): State
    requires s.resumer != Left
  {
    match s.resumer
    case SetReserved => s.(reserved := x, resumer := TrySwap)
    case TrySwap => if s.status == Init then s.(status := Resumed, resumer := Left) else s.(resumer := RetrySwap)
    case RetrySwap =>
      if s.status == Suspended then s.(status := Finished, resumer := CallBack)
      else s.(failed := true, resumer := Left)
    case CallBack => CallHandle(s).(resumer := Left)
  }

  /** Every assert(false) of the source is recorded: a second compare-and-swap that fails, and a __resume
      that finds no handle. */
  lemma FailuresAreSeen(s: State, x: int)
    ensures s.awaiter == SecondSwap && s.status != Resumed ==> AwaiterStep(s).failed
    ensures s.awaiter == Calling && !s.handle ==> AwaiterStep(s).failed
    ensures s.resumer == RetrySwap && s.status != Suspended ==> ResumerStep(s, x).failed
    ensures s.resumer == CallBack && !s.handle ==> ResumerStep(s, x).failed
  {
  }

  predicate AwaiterCanStep(s: State) { s.awaiter != Parked && s.awaiter != Continued }

  predicate ResumerCanStep(s: State) { s.resumer != Left }

  ghost predicate Next(s: State, t: State, x: int) {
    (AwaiterCanStep(s) && t == AwaiterStep(s)) || (ResumerCanStep(s) && t == ResumerStep(s, x))
  }

  ghost predicate Inv(s: State, x: int) {
    && !s.failed
    && (s.resumer != SetReserved ==> s.reserved == x)
    && match s.status
       case Init => (s.resumer == SetReserved || s.resumer == TrySwap) && s.continued == 0 &&
                    (s.awaiter == Ready || s.awaiter == Store || s.awaiter == FirstSwap) &&
                    (s.handle <==> s.awaiter == FirstSwap)
       case Suspended => s.awaiter == Parked && s.handle && s.continued == 0 &&
                         (s.resumer == SetReserved || s.resumer == TrySwap || s.resumer == RetrySwap)
       case Resumed => s.resumer == Left && (s.handle <==> s.awaiter == FirstSwap || s.awaiter == SecondSwap) &&
                       (if s.awaiter == Continued then s.continued == 1 && s.seen == x
                        else s.continued == 0 && s.awaiter != Calling && s.awaiter != Parked)
       case Finished => if s.awaiter == Continued then s.continued == 1 && s.seen == x && s.resumer == Left && !s.handle
                        else s.continued == 0 && s.handle &&
                             ((s.awaiter == Calling && s.resumer == Left) ||
                              (s.awaiter == Parked && s.resumer == CallBack))
  }

  ghost predicate Run(run: seq<State>, x: int) {
    run != [] && Start(run[0]) && forall i :: 0 <= i < |run| - 1 ==> Next(run[i], run[i + 1], x)
  }

  lemma {:induction false} RunKeepsInv(run: seq<State>, x: int, i: nat)
    requires Run(run, x) && i < |run|
    ensures Inv(run[i], x)
  {
    if i > 0 {
      RunKeepsInv(run, x, i - 1);
      assert Next(run[i - 1], run[i], x);
    }
  }

  /** At no moment of any interleaving is an assert(false) reached or the coroutine continued twice;
      it is continued only with its handle stored, unless it never suspended; when it has gone on it
      has read x and the resuming side no longer touches the event. */
  lemma EveryRunIsSafe(run: seq<State>, x: int, i: nat)
    requires Run(run, x) && i < |run|
    ensures !run[i].failed && run[i].continued <= 1
    ensures run[i].continued == 1 <==> run[i].awaiter == Continued
    ensures run[i].continued == 1 ==> run[i].seen == x && run[i].resumer == Left
    ensures run[i].awaiter == Calling || run[i].resumer == CallBack ==> run[i].handle
  {
    RunKeepsInv(run, x, i);
  }

  /** When the resume call is over before the co_await begins, the coroutine goes on at once and is never
      suspended. */
  lemma ReadyGoesOn(run: seq<State>, x: int, i: nat)
    requires Run(run, x) && i < |run| && run[i].awaiter == Ready && run[i].resumer == Left
    ensures AwaiterCanStep(run[i]) && !ResumerCanStep(run[i])
    ensures var after := AwaiterStep(run[i]); after.awaiter == Continued && after.seen == x && !after.handle
  {
    RunKeepsInv(run, x, i);
  }

  /** Steps left to take at most. */
  function Rank(s: State): nat {
    (match s.awaiter
     case Ready => 5 case Store => 4 case FirstSwap => 3 case SecondSwap => 2 case Calling => 1 case _ => 0)
    + (match s.resumer case SetReserved => 4 case TrySwap => 3 case RetrySwap => 2 case CallBack => 1 case Left => 0)
  }

  lemma {:induction false} RunsAreShort(run: seq<State>, x: int, i: nat)
    requires Run(run, x) && i < |run|
    ensures Rank(run[i]) + i <= 9
  {
    if i > 0 {
      RunsAreShort(run, x, i - 1);
      RunKeepsInv(run, x, i - 1);
      assert Next(run[i - 1], run[i], x);
    }
  }

  /** No interleaving gets stuck: every run ends after at most nine steps, and when neither side can
      step the coroutine has gone on, exactly once. */
  lemma EveryRunContinuesOnce(run: seq<State>, x: int)
    requires Run(run, x)
    ensures |run| <= 10
    ensures var last := run[|run| - 1];
            !AwaiterCanStep(last) && !ResumerCanStep(last) ==> last.continued == 1 && last.seen == x
  {
    RunsAreShort(run, x, |run| - 1);
    RunKeepsInv(run, x, |run| - 1);
  }
}
