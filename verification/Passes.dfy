/** What the sticky assignor does, on ownership alone: the greedy assignment, one visit to a partition,
    one pass, any number of passes. The methods in Sticky.dfy are proved to do exactly this. */
module Passes {
  import opened Order
  import opened Movements
  import opened Assignment

  // ---------------------------------------------------------------- loads read off the owner map

  function Held(now: Owners, m: MemberId): set<TopicPartition> {
    set p | p in now && now[p] == m
  }

  function Count(now: Owners, m: MemberId): nat {
    |Held(now, m)|
  }

  /** An active member's list is as long as the owner map says. */
  lemma CountIsLoad(subs: Subscriptions, current: Assignments, now: Owners, m: MemberId)
    requires Agree(subs, current, now) && m in current
    ensures Count(now, m) == Load(current, m)
  {
    NoDupSize(current[m]);
    assert Elems(current[m]) == Held(now, m);
  }

  lemma CountGiven(now: Owners, p: TopicPartition, m: MemberId, n: MemberId)
    requires p !in now
    ensures Count(now[p := m], n) == Count(now, n) + if n == m then 1 else 0
  {
    assert Held(now[p := m], n) == if n == m then Held(now, n) + {p} else Held(now, n);
  }

  lemma CountMoved(now: Owners, p: TopicPartition, m: MemberId, n: MemberId)
    requires p in now && now[p] != m
    ensures Count(now[p := m], n) == Count(now, n) + (if n == m then 1 else 0) - if n == now[p] then 1 else 0
  {
    if n == now[p] {
      assert Held(now, n) == Held(now[p := m], n) + {p};
    } else {
      assert Held(now[p := m], n) == if n == m then Held(now, n) + {p} else Held(now, n);
    }
  }

  // ---------------------------------------------------------------- the least loaded member

  /** Lighter members first, ties by id. */
  function Lighter(now: Owners): (MemberId, MemberId) -> bool {
    (a, b) => if Count(now, a) == Count(now, b) then MemberLe(a, b) else Count(now, a) < Count(now, b)
  }

  lemma LighterOrder(now: Owners)
    ensures TotalOrder(Lighter(now))
  {
    hide Count;
    StringOrder();
  }

  /** The member a partition is given to: the first of those that may own it. */
  function Pick(subs: Subscriptions, now: Owners, p: TopicPartition): (m: MemberId)
    requires p in subs.ofPartition && subs.ofPartition[p] != []
    ensures subs.Allows(m, p) && forall n :: subs.Allows(n, p) ==> Lighter(now)(m, n)
  {
    LighterOrder(now);
    assert subs.ofPartition[p][0] in Elems(subs.ofPartition[p]);
    Least(Elems(subs.ofPartition[p]), Lighter(now))
  }

  lemma LighterMeans(now: Owners, m: MemberId, n: MemberId)
    ensures Lighter(now)(m, n) <==>
            m == n || |Held(now, m)| < |Held(now, n)| || (|Held(now, m)| == |Held(now, n)| && ComesBefore(m.id, n.id))
  {
    StringLeMeans(m.id, n.id);
    assert m.id == n.id ==> m == n;
    hide Held, ComesBefore, StringLe;
    assert Lighter(now)(m, n) ==
           if Count(now, m) == Count(now, n) then MemberLe(m, n) else Count(now, m) < Count(now, n);
  }

  /** Of those that may own the partition, the one picked owns the fewest, ties by name. */
  lemma PickMeans(subs: Subscriptions, now: Owners, p: TopicPartition, n: MemberId)
    requires p in subs.ofPartition && subs.ofPartition[p] != [] && n in subs.ofPartition[p]
    ensures var m := Pick(subs, now, p);
            && m in subs.ofPartition[p]
            && (m == n || |Held(now, m)| < |Held(now, n)|
                || (|Held(now, m)| == |Held(now, n)| && ComesBefore(m.id, n.id)))
  {
    assert subs.Allows(n, p);
    hide Lighter, Held, ComesBefore;
    LighterMeans(now, Pick(subs, now, p), n);
  }

  lemma PickIs(subs: Subscriptions, now: Owners, p: TopicPartition, m: MemberId)
    requires subs.Allows(m, p) && forall n :: subs.Allows(n, p) ==> Lighter(now)(m, n)
    ensures Pick(subs, now, p) == m
  {
    LighterOrder(now);
    assert Lighter(now)(Pick(subs, now, p), m) && Lighter(now)(m, Pick(subs, now, p));
  }

  // ---------------------------------------------------------------- the greedy assignment

  function Give(subs: Subscriptions, now: Owners, p: TopicPartition): Owners {
    if p in subs.ofPartition && subs.ofPartition[p] != [] then now[p := Pick(subs, now, p)] else now
  }

  function Greedy(subs: Subscriptions, now: Owners, ps: seq<TopicPartition>): Owners
    decreases |ps|
  {
    if ps == [] then now else Greedy(subs, Give(subs, now, ps[0]), ps[1..])
  }

  lemma {:induction false} GreedyAppend(subs: Subscriptions, now: Owners, ps: seq<TopicPartition>,
                                        qs: seq<TopicPartition>)
    ensures Greedy(subs, now, ps + qs) == Greedy(subs, Greedy(subs, now, ps), qs)
    decreases |ps|
  {
    hide Give;
    if ps == [] {
      assert ps + qs == qs;
    } else {
      assert (ps + qs)[1..] == ps[1..] + qs;
      GreedyAppend(subs, Give(subs, now, ps[0]), ps[1..], qs);
    }
  }

  // ---------------------------------------------------------------- one visit, one pass

  /** What the passes work with: who owned what at the start, who is active, and which partitions are
      visited in which order. */
  datatype Setting = Setting(subs: Subscriptions, start: Owners, active: set<MemberId>, order: seq<TopicPartition>)

  /** Some member that may own p is lighter than its owner by two or more. */
  ghost predicate Wanted(subs: Subscriptions, now: Owners, p: TopicPartition) {
    && subs.Shared(p) && p in now && now[p] != MemberId("")
    && exists m :: subs.Allows(m, p) && Count(now, now[p]) > Count(now, m) + 1
  }

  /** A wanted partition, or what the movement record redirects the move to, goes to the lightest
      member that may own the wanted one. */
  ghost function Visit(e: Setting, now: Owners, p: TopicPartition): (after: Owners)
    requires e.start.Keys == now.Keys
    ensures after.Keys == now.Keys
  {
    if Wanted(e.subs, now, p) then Serve(e.start, now, Request(p, Pick(e.subs, now, p))) else now
  }

  /** The verdict of isBalanced. */
  ghost predicate Even(e: Setting, now: Owners) {
    || (forall m, n :: m in e.active && n in e.active ==> Count(now, m) <= Count(now, n) + 1)
    || (forall m, p :: m in e.active && e.subs.Allows(m, p) && p in now ==> Count(now, now[p]) <= Count(now, m))
  }

  /** The ownership after visiting `ps`, cut short when balance is reached, and the number of moves. */
  ghost function Pass(e: Setting, now: Owners, ps: seq<TopicPartition>): (r: (Owners, nat))
    requires e.start.Keys == now.Keys
    ensures r.0.Keys == now.Keys
    decreases |ps|
  {
    if ps == [] || Even(e, now) then (now, 0)
    else
      var (after, moves) := Pass(e, Visit(e, now, ps[0]), ps[1..]);
      (after, moves + if Wanted(e.subs, now, ps[0]) then 1 else 0)
  }

  lemma {:induction false} NoMovesNoChange(e: Setting, now: Owners, ps: seq<TopicPartition>)
    requires e.start.Keys == now.Keys && Pass(e, now, ps).1 == 0
    ensures Pass(e, now, ps).0 == now
    decreases |ps|
  {
    hide Wanted, Even;
    if ps != [] && !Even(e, now) {
      NoMovesNoChange(e, Visit(e, now, ps[0]), ps[1..]);
    }
  }

  // ---------------------------------------------------------------- the do-while loop

  /** The ownership after k passes. */
  ghost function After(e: Setting, now: Owners, k: nat): (r: Owners)
    requires e.start.Keys == now.Keys
    ensures r.Keys == now.Keys
  {
    if k == 0 then now else Pass(e, After(e, now, k - 1), e.order).0
  }

  /** The number of moves in pass k, counted from 0. */
  ghost function MovesAt(e: Setting, now: Owners, k: nat): nat
    requires e.start.Keys == now.Keys
  {
    Pass(e, After(e, now, k), e.order).1
  }

  /** One of the first n passes makes no move, so the loop ends. */
  ghost predicate Settles(e: Setting, now: Owners, n: nat)
    requires e.start.Keys == now.Keys
  {
    exists k :: 0 <= k < n && MovesAt(e, now, k) == 0
  }

  /** After a pass without moves nothing ever moves again. */
  lemma {:induction false} StaysSettled(e: Setting, now: Owners, k: nat, n: nat)
    requires e.start.Keys == now.Keys && MovesAt(e, now, k) == 0 && k <= n
    ensures After(e, now, n) == After(e, now, k) && MovesAt(e, now, n) == 0
    decreases n
  {
    hide Pass;
    if k < n {
      StaysSettled(e, now, k, n - 1);
      NoMovesNoChange(e, After(e, now, k), e.order);
    }
  }

  // ---------------------------------------------------------------- from the subscriptions on

  /** The partitions in the order of topic_t. */
  function SortedPartitions(s: set<TopicPartition>): (r: seq<TopicPartition>)
    ensures NoDup(r) && forall p :: p in r <==> p in s
  {
    PartitionOrder();
    Sorted(s, PartitionLe)
  }

  function Consumers(consumers: map<TopicPartition, seq<MemberId>>, p: TopicPartition): nat {
    if p in consumers then |consumers[p]| else 0
  }

  /** The partitions with the fewest potential consumers first, then in the order of topic_t. */
  function ByConsumers(consumers: map<TopicPartition, seq<MemberId>>): (TopicPartition, TopicPartition) -> bool {
    (a, b) => if Consumers(consumers, a) == Consumers(consumers, b) then PartitionLe(a, b)
              else Consumers(consumers, a) < Consumers(consumers, b)
  }

  lemma ByConsumersOrder(consumers: map<TopicPartition, seq<MemberId>>)
    ensures TotalOrder(ByConsumers(consumers))
  {
    PartitionOrder();
  }

  function SortedByConsumers(consumers: map<TopicPartition, seq<MemberId>>): (r: seq<TopicPartition>)
    ensures NoDup(r) && SortedBy(r, ByConsumers(consumers)) && forall p :: p in r <==> p in consumers
  {
    ByConsumersOrder(consumers);
    Sorted(consumers.Keys, ByConsumers(consumers))
  }

  /** The order of visits: p has fewer potential consumers than q, or as many and comes before it. */
  ghost predicate VisitedBefore(subs: Subscriptions, p: TopicPartition, q: TopicPartition)
    requires p in subs.ofPartition && q in subs.ofPartition
  {
    || |subs.ofPartition[p]| < |subs.ofPartition[q]|
    || (|subs.ofPartition[p]| == |subs.ofPartition[q]| && Before(p, q))
  }

  lemma ByConsumersMeans(subs: Subscriptions, p: TopicPartition, q: TopicPartition)
    requires p in subs.ofPartition && q in subs.ofPartition && p != q
    ensures ByConsumers(subs.ofPartition)(p, q) <==> VisitedBefore(subs, p, q)
  {
    PartitionLeMeans(p, q);
  }

  ghost predicate InVisitOrder(subs: Subscriptions, r: seq<TopicPartition>) {
    && (forall i :: 0 <= i < |r| ==> r[i] in subs.ofPartition)
    && (forall i, j :: 0 <= i < j < |r| ==> VisitedBefore(subs, r[i], r[j]))
  }

  lemma SortedInVisitOrder(subs: Subscriptions, r: seq<TopicPartition>)
    requires NoDup(r) && SortedBy(r, ByConsumers(subs.ofPartition)) && forall p :: p in r ==> p in subs.ofPartition
    ensures InVisitOrder(subs, r)
  {
    hide ByConsumers, VisitedBefore;
    forall i, j | 0 <= i < j < |r| ensures VisitedBefore(subs, r[i], r[j]) {
      ByConsumersMeans(subs, r[i], r[j]);
    }
  }

  /** Partitions are sorted by their potential consumers, and visited in that order. */
  lemma VisitOrder(subs: Subscriptions)
    ensures InVisitOrder(subs, SortedByConsumers(subs.ofPartition)) && InVisitOrder(subs, Reassignables(subs))
  {
    hide InVisitOrder, SortedByConsumers, Reassignables, ByConsumers;
    SortedInVisitOrder(subs, SortedByConsumers(subs.ofPartition));
    SortedInVisitOrder(subs, Reassignables(subs));
  }

  /** The greedy assignment deals partitions out by topic and number. */
  lemma GreedyOrder(s: set<TopicPartition>)
    ensures var r := SortedPartitions(s); forall i, j :: 0 <= i < j < |r| ==> Before(r[i], r[j])
  {
    PartitionOrder();
    var r := SortedPartitions(s);
    forall i, j | 0 <= i < j < |r| ensures Before(r[i], r[j]) {
      assert PartitionLe(r[i], r[j]);
      PartitionLeMeans(r[i], r[j]);
    }
  }

  function SharedPartitions(subs: Subscriptions): set<TopicPartition> {
    set p | p in subs.ofPartition && subs.Shared(p)
  }

  /** The partitions a pass visits, in order. */
  function Reassignables(subs: Subscriptions): (r: seq<TopicPartition>)
    ensures forall p :: p in r <==> subs.Shared(p)
    ensures NoDup(r) && SortedBy(r, ByConsumers(subs.ofPartition))
  {
    ByConsumersOrder(subs.ofPartition);
    Sorted(SharedPartitions(subs), ByConsumers(subs.ofPartition))
  }

  /** m may take part: it does not hold all it may own, or it holds something shared. */
  ghost predicate TakesPart(subs: Subscriptions, now: Owners, m: MemberId) {
    m in subs.ofMember &&
    (Count(now, m) < |subs.ofMember[m]| || exists p :: p in now && now[p] == m && subs.Shared(p))
  }

  /** A member listed without repetitions is set aside exactly when everything it may own is its own and
      nobody else may own any of it. */
  lemma SetAsideExactly(subs: Subscriptions, now: Owners, m: MemberId)
    requires subs.Valid() && m in subs.ofMember && NoDup(subs.ofMember[m])
    requires forall p :: p in now ==> subs.Allows(now[p], p)
    ensures !TakesPart(subs, now, m) <==>
            forall p :: p in subs.ofMember[m] ==> p in now && now[p] == m && |subs.ofPartition[p]| < 2
  {
    var mine := Elems(subs.ofMember[m]);
    NoDupSize(subs.ofMember[m]);
    forall p | p in Held(now, m) ensures p in mine {
      assert subs.Allows(now[p], p);
    }
    SubsetSize(Held(now, m), mine);
    if !TakesPart(subs, now, m) {
      assert Held(now, m) == mine;
      forall p | p in subs.ofMember[m] ensures p in now && now[p] == m && |subs.ofPartition[p]| < 2 {
        assert p in Held(now, m);
      }
    }
    HoldsEverything(subs, now, m);
  }

  lemma HoldsEverything(subs: Subscriptions, now: Owners, m: MemberId)
    requires subs.Valid() && m in subs.ofMember && NoDup(subs.ofMember[m])
    requires forall p :: p in now ==> subs.Allows(now[p], p)
    ensures (forall p :: p in subs.ofMember[m] ==> p in now && now[p] == m && |subs.ofPartition[p]| < 2) ==>
              !TakesPart(subs, now, m)
  {
    NoDupSize(subs.ofMember[m]);
    if forall p :: p in subs.ofMember[m] ==> p in now && now[p] == m && |subs.ofPartition[p]| < 2 {
      assert Elems(subs.ofMember[m]) <= Held(now, m);
      SubsetSize(Elems(subs.ofMember[m]), Held(now, m));
      forall p | p in now && now[p] == m ensures !subs.Shared(p) {
        assert subs.Allows(now[p], p);
      }
    }
  }

  ghost function Active(subs: Subscriptions, now: Owners): set<MemberId> {
    set m | m in subs.ofMember && TakesPart(subs, now, m)
  }

  /** The greedy assignment of everything, in the order of topic_t. */
  function FirstOwners(subs: Subscriptions): Owners {
    Greedy(subs, map[], SortedPartitions(subs.ofPartition.Keys))
  }

  ghost function Opening(subs: Subscriptions): Setting {
    Setting(subs, FirstOwners(subs), Active(subs, FirstOwners(subs)), Reassignables(subs))
  }

  /** Who owns what when a plan is written after at most n passes. */
  ghost function Outcome(subs: Subscriptions, n: nat): Owners {
    After(Opening(subs), FirstOwners(subs), n)
  }

  /** A plan's loop of passes ends within n passes. */
  ghost predicate PlanSettles(subs: Subscriptions, n: nat) {
    Settles(Opening(subs), FirstOwners(subs), n)
  }

  // ---------------------------------------------------------------- how the assignor's state matches

  /** The first member in load order that may own p is the lightest by the owner map. */
  lemma FirstIsPick(subs: Subscriptions, current: Assignments, owner: Owners, p: TopicPartition, i: nat)
    requires Agree(subs, current, owner) && forall m :: subs.Allows(m, p) ==> m in current
    requires i < |SortMembers(current)| && subs.Allows(SortMembers(current)[i], p)
    requires forall j :: 0 <= j < i ==> !subs.Allows(SortMembers(current)[j], p)
    ensures Pick(subs, owner, p) == SortMembers(current)[i]
  {
    var members := SortMembers(current);
    assert members[i] in current;
    ByLoadOrder(current);
    SortMembersSorted(current);
    hide Agree, SortMembers, Load, Count, Subscriptions.Allows, MemberLe;
    forall m | subs.Allows(m, p) ensures Lighter(owner)(members[i], m) {
      assert m in members;
      var k :| 0 <= k < |members| && members[k] == m;
      assert ByLoad(current)(members[i], m);
      CountIsLoad(subs, current, owner, members[i]);
      CountIsLoad(subs, current, owner, m);
    }
    PickIs(subs, owner, p, members[i]);
  }

  lemma ReassignIsServe(subs: Subscriptions, start: Owners, b: Ledger, p: TopicPartition, taker: MemberId)
    requires Inv(subs, start, b) && Movable(subs, b, p, taker)
    ensures Reassign(subs, start, b, p, taker).owner == Serve(start, b.owner, Request(p, taker))
  {
  }

  /** Whoever may own a shared partition is active, so lists and owner map give the same loads. */
  lemma RivalLoads(subs: Subscriptions, start: Owners, b: Ledger, p: TopicPartition)
    requires Inv(subs, start, b) && subs.Shared(p)
    ensures forall m :: subs.Allows(m, p) ==> m in b.current && Count(b.owner, m) == Load(b.current, m)
  {
    forall m | subs.Allows(m, p) ensures m in b.current && Count(b.owner, m) == Load(b.current, m) {
      assert m !in b.current ==> !subs.Shared(p);
      CountIsLoad(subs, b.current, b.owner, m);
    }
  }

  lemma WantedByLoad(subs: Subscriptions, start: Owners, b: Ledger, p: TopicPartition)
    requires Inv(subs, start, b)
    ensures Wanted(subs, b.owner, p) <==>
      && subs.Shared(p) && p in b.owner && b.owner[p] != MemberId("")
      && exists m :: subs.Allows(m, p) && Load(b.current, b.owner[p]) > Load(b.current, m) + 1
  {
    if subs.Shared(p) && p in b.owner {
      RivalLoads(subs, start, b, p);
      assert subs.Allows(b.owner[p], p);
    }
  }

  /** isBalanced decides evenness. */
  lemma EvenByLoad(e: Setting, b: Ledger)
    requires Inv(e.subs, e.start, b) && e.active == b.current.Keys
    ensures Even(e, b.owner) <==> Balanced(e.subs, b.current, b.owner)
  {
    var subs := e.subs;
    forall m | m in b.current ensures Count(b.owner, m) == Load(b.current, m) {
      CountIsLoad(subs, b.current, b.owner, m);
    }
    hide Count, Load;
    forall m, p | m in b.current && subs.Allows(m, p) && p in b.owner
      ensures Count(b.owner, b.owner[p]) == Load(b.current, b.owner[p])
    {
      if b.owner[p] != m {
        assert subs.Allows(b.owner[p], p);
        TwoOwnersShared(subs, p, m, b.owner[p]);
        RivalLoads(subs, e.start, b, p);
      }
    }
  }

  lemma TakesPartByLists(subs: Subscriptions, current: Assignments, owner: Owners, m: MemberId)
    requires Agree(subs, current, owner) && m in current
    ensures TakesPart(subs, owner, m) <==>
      |current[m]| < |subs.ofMember[m]| || exists i :: 0 <= i < |current[m]| && subs.Shared(current[m][i])
  {
    CountIsLoad(subs, current, owner, m);
    forall i | 0 <= i < |current[m]| ensures current[m][i] in owner && owner[current[m][i]] == m {
      assert current[m][i] in current[m];
    }
    forall p | p in owner && owner[p] == m ensures p in current[m] {
    }
  }
}
