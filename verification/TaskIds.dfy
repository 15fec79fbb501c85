/** Identifiers and the table of live coroutines of co_task. */
module TaskIds {
  import opened Order
  import opened GuardAsync

  const TASK_ID_MAX: int := 1000000000000000000

  /** The identifier tried after `id`: the next one up, wrapping to 0 beyond the maximum. */
  function Succ(id: int): int {
    if id + 1 > TASK_ID_MAX then 0 else id + 1
  }

  ghost predicate InRange(id: int) {
    0 <= id <= TASK_ID_MAX
  }

  /** Steps round the ring from `id` to `target`, at least one. */
  ghost function Distance(id: int, target: int): int {
    if target > id then target - id else target - id + TASK_ID_MAX + 1
  }

  /** The first identifier after `id`, going round, that is not in use. */
  ghost predicate FirstFree(id: int, ids: set<int>, free: int) {
    && InRange(free) && free !in ids
    && forall x :: InRange(x) && Distance(id, x) < Distance(id, free) ==> x in ids
  }

  lemma FirstFreeUnique(id: int, ids: set<int>, a: int, b: int)
    requires InRange(id) && FirstFree(id, ids, a) && FirstFree(id, ids, b)
    ensures a == b
  {
    assert Distance(id, a) == Distance(id, b);
  }

  ghost function Below(n: nat): (s: set<int>)
    ensures |s| == n && forall x :: x in s <==> 0 <= x < n
  {
    if n == 0 then {} else Below(n - 1) + {n - 1}
  }

  /** Fewer identifiers in use than there are leaves one free. */
  lemma SomeFree(ids: set<int>) returns (free: int)
    requires |ids| <= TASK_ID_MAX
    ensures InRange(free) && free !in ids
  {
    var all := Below(TASK_ID_MAX + 1);
    if all <= ids {
      SubsetSize(all, ids);
    }
    free :| free in all && free !in ids;
  }

  /** The search ends, by the ring distance to some free identifier, and finds the first free one. */
  method Increase(id: int, ids: set<int>) returns (newId: int, newIds: set<int>)
    requires InRange(id) && |ids| < TASK_ID_MAX / 2
    ensures FirstFree(id, ids, newId)
    ensures newIds == ids + {newId}
  {
    ghost var free := SomeFree(ids);
    newId := id;
    while true
      invariant InRange(newId)
      invariant newId == id || newId in ids
      invariant newId != id ==> forall x :: InRange(x) && Distance(id, x) <= Distance(id, newId) ==> x in ids
      invariant newId != id ==> Distance(id, newId) < Distance(id, free)
      decreases Distance(newId, free)
    {
      ghost var before := newId;
      newId := newId + 1;
      if newId > TASK_ID_MAX {
        newId := 0;
      }
      assert newId == Succ(before);
      if newId !in ids {
        newIds := ids + {newId};
        return;
      }
    }
  }

  /** The identifier after `id` is the next one up as long as those in use are below it. */
  lemma NextIdIsSucc(id: int, ids: set<int>, newId: int)
    requires 0 <= id < TASK_ID_MAX && FirstFree(id, ids, newId) && forall x :: x in ids ==> 1 <= x <= id
    ensures newId == id + 1
  {
    assert Distance(id, id + 1) == 1;
    if newId != id + 1 {
      assert InRange(id + 1) && Distance(id, id + 1) < Distance(id, newId);
    }
  }

  // ---------------------------------------------------------------- the guarded table as a value

  type Child = nat

  datatype Table = Table(promises: map<Child, int>, ids: set<int>, id: int)

  /** What load does to the table, under a first free identifier. */
  function Loaded(t: Table, c: Child, newId: int): Table {
    Table(t.promises[c := newId], t.ids + {newId}, newId)
  }

  /** What unload does to the table: the entry goes, and its identifier is free again. */
  function Erased(t: Table, c: Child): Table
    requires c in t.promises
  {
    Table(t.promises - {c}, t.ids - {t.promises[c]}, t.id)
  }

  /** The children that have still to deliver once c has been erased: with identifier 0 it never will. */
  function Delivering(t: Table, c: Child, pending: set<Child>): set<Child>
    requires c in t.promises
  {
    if t.promises[c] != 0 then pending + {c} else pending
  }

  /** A child can be loaded under this identifier. */
  ghost predicate CanLoad(t: Table, newId: int) {
    |t.ids| < TASK_ID_MAX / 2 && FirstFree(t.id, t.ids, newId)
  }

  /** A first free identifier exists as long as fewer are in use than there are. */
  lemma FirstFreeExists(id: int, ids: set<int>) returns (free: int)
    requires |ids| <= TASK_ID_MAX
    ensures FirstFree(id, ids, free)
  {
    free := SomeFree(ids);
    while exists x :: InRange(x) && x !in ids && Distance(id, x) < Distance(id, free)
      invariant InRange(free) && free !in ids
      decreases Distance(id, free) + TASK_ID_MAX + if id < 0 then 0 else id
    {
      var nearer :| InRange(nearer) && nearer !in ids && Distance(id, nearer) < Distance(id, free);
      free := nearer;
    }
  }

  /** The locked block of wait: sleeps while a child is live. */
  function WaitBlock(a: Async<Table>, waiter: Ticket): (Async<Table>, bool) {
    SuspendBlock(a, waiter, (t: Table) => t.promises != map[], (t: Table, k: Ticket) => t)
  }

  /** The locked block of the deliver call in unload. */
  function DeliverBlock(a: Async<Table>): (Async<Table>, Option<Ticket>) {
    EvBlock(a, (t: Table) => t, (t: Table, k: Ticket) => t)
  }

  // ---------------------------------------------------------------- the table as an object

  /** The int that load and unload return: the identifier cut to 32 bits, two's complement. */
  function ToInt(id: int): (r: int)
    ensures -0x8000_0000 <= r < 0x8000_0000 && (id - r) % 0x1_0000_0000 == 0
  {
    (id + 0x8000_0000) % 0x1_0000_0000 - 0x8000_0000
  }

  /** The caller gets the true identifier exactly as long as it fits in an int. */
  lemma ReturnedExactly(id: int)
    requires InRange(id)
    ensures ToInt(id) == id <==> id < 0x8000_0000
  {
  }

  /** Beyond that, two live tasks can be reported under the same number. */
  lemma ReturnedTwice(id: int)
    ensures ToInt(id) == ToInt(id + 0x1_0000_0000)
  {
  }

  /** A loaded coroutine's promise. */
  type Promise = nat

  /** The table of live tasks; the guard version runs each method's table work under its mutex. */
  class CoTask {
    var promises: map<Promise, int>
    var ids: set<int>
    var id: int

    /** Live tasks have pairwise distinct identifiers, all marked as in use. */
    ghost predicate Valid()
      reads this
    {
      && InRange(id)
      && (forall p :: p in promises ==> promises[p] in ids)
      && (forall p, q :: p in promises && q in promises && promises[p] == promises[q] ==> p == q)
    }

    ghost function Contents(): Table
      reads this
    {
      Table(promises, ids, id)
    }

    constructor ()
      ensures Valid() && promises == map[] && ids == {} && id == 0
    {
      promises, ids, id := map[], {}, 0;
    }

    /** Enters the promise under the first free identifier and returns that identifier as an int. */
    method Load(p: Promise) returns (r: int)
      requires Valid() && p !in promises && |ids| < TASK_ID_MAX / 2
      modifies this
      ensures Valid()
      ensures FirstFree(old(id), old(ids), id) && ids == old(ids) + {id}
      ensures promises == old(promises)[p := id] && r == ToInt(id)
      ensures Contents() == Loaded(old(Contents()), p, id)
    {
      id, ids := Increase(id, ids);
      promises := promises[p := id];
      r := ToInt(id);
    }

    /** Returns the identifier given up, as an int, or 0 when the promise is not in the table; `deliver`
        says whether the source goes on to deliver it, which it decides on the whole identifier. */
    method Unload(p: Promise) returns (r: int, deliver: bool)
      requires Valid()
      modifies this
      ensures Valid()
      ensures promises == old(promises) - {p} && id == old(id)
      ensures p in old(promises) ==>
                var gone := old(promises)[p]; r == ToInt(gone) && ids == old(ids) - {gone} && (deliver <==> gone != 0)
      ensures p !in old(promises) ==> r == 0 && ids == old(ids) && !deliver
      ensures p in old(promises) ==> Contents() == Erased(old(Contents()), p)
    {
      var gone := 0;
      if p in promises {
        gone := promises[p];
        promises := promises - {p};
        ids := ids - {gone};
      }
      deliver := gone != 0;
      r := ToInt(gone);
    }

    /** Removes the live entry with this identifier, if any, and leaves the identifier marked as in use. */
    method Destroy(victim: int) returns (p: Option<Promise>)
      requires Valid()
      modifies this
      ensures Valid() && ids == old(ids) && id == old(id)
      ensures p.Some? ==> p.value in old(promises) && old(promises)[p.value] == victim
      ensures p.Some? ==> promises == old(promises) - {p.value}
      ensures p.None? ==> promises == old(promises) && forall q :: q in promises ==> promises[q] != victim
    {
      var keys := SortedPromises(promises.Keys);
      for i := 0 to |keys|
        invariant promises == old(promises) && ids == old(ids) && id == old(id)
        invariant forall k :: 0 <= k < i ==> promises[keys[k]] != victim
      {
        if promises[keys[i]] == victim {
          p := Some(keys[i]);
          promises := promises - {keys[i]};
          return;
        }
      }
      p := None;
    }

    method DestroyAll() returns (victims: map<Promise, int>)
      requires Valid()
      modifies this
      ensures Valid() && promises == map[] && victims == old(promises) && ids == old(ids) && id == old(id)
    {
      victims := promises;
      promises := map[];
    }
  }

  function SortedPromises(s: set<Promise>): (r: seq<Promise>)
    ensures forall x :: x in r <==> x in s
  {
    Sorted(s, (a: Promise, b: Promise) => a <= b)
  }
}
