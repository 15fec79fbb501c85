/** guard::co_async: shared state and a queue of waiting coroutines under one internal mutex. Each
    block under that mutex is one function here; what a woken coroutine does after it has been taken
    off the queue happens in a later step of the machine that uses these functions. */
module GuardAsync {
  /** One call that may wait. */
  type Ticket = nat

  datatype Option<T> = None | Some(value: T)

  /** `shared` is what the callbacks read and write, `waiters` the queue; `arrived` and `served` log
      the tickets that have queued and those taken off, in lock order. */
  datatype Async<U> = Async(shared: U, waiters: seq<Ticket>, arrived: seq<Ticket>, served: seq<Ticket>)

  /** The block of `suspend`: queues when the predicate says so, otherwise runs the getter at once. */
  function SuspendBlock<U>(a: Async<U>, t: Ticket, suspend: U -> bool, get: (U, Ticket) -> U): (r: (Async<U>, bool))
    ensures r.1 == suspend(a.shared)
  {
    if suspend(a.shared) then (a.(waiters := a.waiters + [t], arrived := a.arrived + [t]), true)
    else (a.(shared := get(a.shared, t)), false)
  }

  /** The block of `deliver` and `resume`: runs the setter, takes the first waiter off the queue and
      runs its getter on its behalf, all before the mutex is released. */
  function EvBlock<U>(a: Async<U>, set_: U -> U, get: (U, Ticket) -> U): (r: (Async<U>, Option<Ticket>))
    ensures r.1.None? <==> a.waiters == []
  {
    var shared := set_(a.shared);
    if a.waiters == [] then (a.(shared := shared), None)
    else
      (Async(get(shared, a.waiters[0]), a.waiters[1..], a.arrived, a.served + [a.waiters[0]]), Some(a.waiters[0]))
  }

  /** Waiters are served in the order they arrived. */
  ghost predicate Fifo<U>(a: Async<U>) {
    a.arrived == a.served + a.waiters
  }

  lemma BlocksKeepFifo<U>(a: Async<U>, t: Ticket, suspend: U -> bool, set_: U -> U, get: (U, Ticket) -> U)
    requires Fifo(a)
    ensures Fifo(SuspendBlock(a, t, suspend, get).0)
    ensures Fifo(EvBlock(a, set_, get).0)
  {
    if a.waiters != [] {
      assert a.waiters == [a.waiters[0]] + a.waiters[1..];
    }
  }
}
