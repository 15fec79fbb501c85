/** The sticky assignor. The working state that the private methods of the original pass to each
    other by reference is held in fields. */
module Sticky {
  import opened Order
  import opened Movements
  import opened Assignment
  import opened Plans
  import opened Subscribing
  import opened Passes
  import opened Settling
  import opened Termination

  predicate Contains<T(==)>(s: seq<T>, x: T) {
    exists i :: 0 <= i < |s| && s[i] == x
  }

  /** Whether a member may take part: it does not hold all it may own, or it holds something shared. */
  predicate CanConsumerParticipate(m: MemberId, current: Assignments, subs: Subscriptions) {
    if m !in current then m in subs.ofMember && subs.ofMember[m] != []
    else if m !in subs.ofMember then false
    else |current[m]| < |subs.ofMember[m]| || exists i :: 0 <= i < |current[m]| && subs.Shared(current[m][i])
  }

  /** Counting is enough: a member whose list is as long as what it may own holds all of it. */
  lemma HoldsAll(m: MemberId, current: Assignments, owner: Owners, subs: Subscriptions)
    requires subs.Valid() && Agree(subs, current, owner) && m in current && |current[m]| >= |subs.ofMember[m]|
    ensures forall p :: subs.Allows(m, p) ==> p in current[m]
  {
    var held, potential := Elems(current[m]), Elems(subs.ofMember[m]);
    assert held <= potential by {
      forall p | p in held ensures p in potential {
        assert p in owner && owner[p] == m;
      }
    }
    NoDupSize(current[m]);
    ElemsSize(subs.ofMember[m]);
    SubsetSize(held, potential);
    forall p | subs.Allows(m, p) ensures p in current[m] {
      assert p in potential;
    }
  }

  /** A member that cannot take part holds everything it may own, and none of it is shared. */
  lemma CannotParticipate(m: MemberId, current: Assignments, owner: Owners, subs: Subscriptions)
    requires subs.Valid() && Agree(subs, current, owner) && m in current
    requires !CanConsumerParticipate(m, current, subs)
    ensures forall p :: subs.Allows(m, p) ==> p in current[m] && !subs.Shared(p)
  {
    HoldsAll(m, current, owner, subs);
  }

  class StickyBalanceStrategy {
    var movements: PartitionMovements
    var currentAssignment: Assignments
    var currentPartitionConsumer: Owners
    var sortedCurrentSubscriptions: seq<MemberId>

    constructor ()
      ensures fresh(movements) && movements.Valid() && movements.movements == map[]
    {
      movements := new PartitionMovements();
      currentAssignment := map[];
      currentPartitionConsumer := map[];
      sortedCurrentSubscriptions := [];
    }

    ghost function State(): Ledger
      reads this, movements
    {
      Ledger(currentAssignment, currentPartitionConsumer, movements.movements)
    }

    /** The record is well formed, the state satisfies the invariant, and the member list is sorted. */
    ghost predicate Good(subs: Subscriptions, start: Owners)
      reads this, movements
    {
      movements.Valid() && Inv(subs, start, State()) && sortedCurrentSubscriptions == SortMembers(currentAssignment)
    }

    // ----------------------------------------------------------- one reassignment

    method ProcessPartitionMovement(p: TopicPartition, newConsumer: MemberId)
      requires movements.Valid()
      requires p in currentPartitionConsumer && currentPartitionConsumer[p] in currentAssignment
      requires newConsumer in currentAssignment
      modifies this`currentAssignment, this`currentPartitionConsumer, this`sortedCurrentSubscriptions, movements
      ensures movements.Valid() && State() == Process(old(State()), p, newConsumer)
      ensures sortedCurrentSubscriptions == SortMembers(currentAssignment)
    {
      var oldConsumer := currentPartitionConsumer[p];
      movements.MovePartition(p, oldConsumer, newConsumer);
      currentAssignment := currentAssignment[oldConsumer := RemoveFirst(currentAssignment[oldConsumer], p)];
      currentAssignment := currentAssignment[newConsumer := currentAssignment[newConsumer] + [p]];
      currentPartitionConsumer := currentPartitionConsumer[p := newConsumer];
      sortedCurrentSubscriptions := SortMembers(currentAssignment);
    }

    method ReassignPartition(subs: Subscriptions, ghost start: Owners, p: TopicPartition, newConsumer: MemberId)
      requires Good(subs, start) && Movable(subs, State(), p, newConsumer)
      modifies this`currentAssignment, this`currentPartitionConsumer, this`sortedCurrentSubscriptions, movements
      ensures Good(subs, start)
      ensures State() == Reassign(subs, start, old(State()), p, newConsumer)
    {
      hide Inv, Movable;
      ghost var before := State();
      assert p in currentPartitionConsumer by { MovableParts(subs, before, p, newConsumer); }
      var consumer := currentPartitionConsumer[p];
      var partitionToBeMoved := movements.GetTheActualPartitionToBeMoved(p, consumer, newConsumer);
      ChosenIsMovable(subs, start, before, p, newConsumer);
      ReassignKeepsInv(subs, start, before, p, newConsumer);
      ProcessPartitionMovement(partitionToBeMoved, newConsumer);
    }

    /** Hands p, or what the record prefers to move instead, to a least loaded member allowed to own
        it. Its caller has seen a member lighter than the owner by two or more. */
    method ReassignPartitionToNewConsumer(subs: Subscriptions, ghost start: Owners, p: TopicPartition)
      returns (ghost taker: MemberId)
      requires Good(subs, start) && Reassignable(subs, State(), p)
      modifies this`currentAssignment, this`currentPartitionConsumer, this`sortedCurrentSubscriptions, movements
      ensures Good(subs, start)
      ensures GoodTaker(subs, old(State()), p, taker)
      ensures PickedBy(subs, old(currentPartitionConsumer), p, taker)
      ensures State() == Reassign(subs, start, old(State()), p, taker)
    {
      var members := sortedCurrentSubscriptions;
      hide Inv, Reassignable, GoodTaker, Reassign, SortMembers, PickedBy;
      InvParts(subs, start, State());
      var i := FirstAllowed(members, subs, p);
      SomeMemberAllowed(subs, start, State(), p);
      taker := members[i];
      FirstAllowedIsGood(subs, start, State(), p, i);
      FirstAllowedIsPicked(subs, start, State(), p, i);
      GoodTakerParts(subs, State(), p, taker);
      ReassignPartition(subs, start, p, members[i]);
    }

    /** Moves partitions one at a time until a pass changes nothing. The do-while loop of the source need
        not end, so the number of passes is bounded by `maxPasses`; `settled` says whether the loop has
        ended by then. Ownership is exactly what that many passes make of it. */
    method PerformReassignments(subs: Subscriptions, reassignable: seq<TopicPartition>, maxPasses: nat)
      returns (performed: bool, settled: bool)
      requires Good(subs, State().owner)
      requires forall p :: p in reassignable ==> p in subs.ofPartition
      requires forall p :: subs.Shared(p) ==> p in reassignable
      modifies this`currentAssignment, this`currentPartitionConsumer, this`sortedCurrentSubscriptions, movements
      ensures Good(subs, old(State()).owner)
      ensures State().current.Keys == old(State()).current.Keys
      ensures var e := Setting(subs, old(State()).owner, old(State()).current.Keys, reassignable);
              && State().owner == After(e, e.start, maxPasses)
              && (settled <==> Settles(e, e.start, maxPasses))
              && (performed <==> maxPasses > 0 && MovesAt(e, e.start, 0) > 0)
      ensures !performed ==> State() == old(State())
      ensures Potential(State()) <= Potential(old(State())) && Squares(State()) <= Squares(old(State()))
      ensures settled ==> LocallyOptimal(subs, State().current, State().owner)
    {
      ghost var before := State();
      ghost var e := Setting(subs, before.owner, before.current.Keys, reassignable);
      hide *;
      performed := false;
      var modified := true;
      var passes := 0;
      assert Inv(subs, e.start, before) by { GoodIsInv(subs, e.start); }
      LoopedStart(e, before);
      while modified && passes < maxPasses
        invariant passes <= maxPasses && Good(subs, e.start)
        invariant Looped(e, before, State(), passes, performed, modified)
        decreases maxPasses - passes
      {
        ghost var b := State();
        LoopedKeys(e, before, b, passes, performed, modified);
        modified := OnePass(subs, e, reassignable);
        LoopedStep(e, before, b, State(), passes, performed, modified);
        performed := performed || modified;
        passes := passes + 1;
      }
      settled := !modified;
      LoopedEnd(e, before, State(), passes, maxPasses, performed, modified);
    }

    /** One pass of the do-while loop. */
    method OnePass(subs: Subscriptions, ghost e: Setting, reassignable: seq<TopicPartition>) returns (modified: bool)
      requires e.subs == subs && e.active == State().current.Keys && Good(subs, e.start)
      requires forall p :: p in reassignable ==> p in subs.ofPartition
      requires forall p :: subs.Shared(p) ==> p in reassignable
      modifies this`currentAssignment, this`currentPartitionConsumer, this`sortedCurrentSubscriptions, movements
      ensures Good(subs, e.start)
      ensures PassDone(e, old(State()), State(), reassignable, modified)
    {
      hide *;
      ghost var before := State();
      modified := false;
      assert Inv(e.subs, e.start, before) by { GoodIsInv(subs, e.start); }
      PassBegins(e, before, reassignable);
      for k := 0 to |reassignable|
        invariant Good(subs, e.start)
        invariant PassedTo(e, before, State(), reassignable, k, modified)
      {
        ghost var b := State();
        PassedParts(e, before, b, reassignable, k, modified);
        var balanced := BalancedNow(subs, e);
        if balanced {
          PassEnds(e, before, b, reassignable, k, modified);
          return;
        }
        var moved := ReassignIfUneven(subs, e, reassignable[k]);
        PassGoesOn(e, before, b, State(), reassignable, k, modified, moved);
        modified := modified || moved;
      }
      PassEnds(e, before, State(), reassignable, |reassignable|, modified);
    }

    lemma GoodIsInv(subs: Subscriptions, start: Owners)
      requires Good(subs, start)
      ensures Inv(subs, start, State())
    {
    }

    /** The test each visit starts with. */
    method BalancedNow(subs: Subscriptions, ghost e: Setting) returns (balanced: bool)
      requires e.subs == subs && e.active == State().current.Keys && Good(subs, e.start)
      ensures balanced <==> Even(e, State().owner)
      ensures balanced ==> LocallyOptimal(subs, State().current, State().owner)
    {
      hide Inv, Balanced, Even, LocallyOptimal, SortMembers, Agree, Subscriptions.Valid;
      InvParts(subs, e.start, State());
      EvenByLoad(e, State());
      balanced := IsBalanced(currentAssignment, subs, currentPartitionConsumer);
      if balanced {
        BalancedIsOptimal(subs, e.start, State());
      }
    }

    /** The loop body: one partition is moved when some member allowed to own it is lighter than its
        owner by two or more. */
    method ReassignIfUneven(subs: Subscriptions, ghost e: Setting, partition: TopicPartition) returns (moved: bool)
      requires e.subs == subs && Good(subs, e.start) && partition in subs.ofPartition
      modifies this`currentAssignment, this`currentPartitionConsumer, this`sortedCurrentSubscriptions, movements
      ensures Good(subs, e.start)
      ensures VisitDone(e, old(State()), State(), partition, moved)
    {
      hide Inv, GoodTaker, Reassign, Potential, Subscriptions.Valid, Load, SortMembers, Movable, PickedBy, VisitDone;
      ghost var before := State();
      NotWanted(e, before, partition);
      if |subs.ofPartition[partition]| <= 1 {
        return false;
      }
      var consumer :=
        if partition in currentPartitionConsumer then currentPartitionConsumer[partition] else MemberId("");
      if consumer == MemberId("") {
        return false;
      }
      var others, current := subs.ofPartition[partition], currentAssignment;
      for j := 0 to |others|
        invariant forall i :: 0 <= i < j ==> Load(current, consumer) <= Load(current, others[i]) + 1
      {
        if Load(current, consumer) > Load(current, others[j]) + 1 {
          assert subs.Allows(others[j], partition);
          ghost var taker := ReassignPartitionToNewConsumer(subs, e.start, partition);
          VisitMoves(e, before, partition, taker);
          return true;
        }
      }
      return false;
    }

    // ------------------------------------------------------------ the whole assignment

    /** A complete plan. It gives out exactly what the greedy assignment and at most `maxPasses` passes
        lead to, exactly once; the record it leaves is sticky; `settled` says whether the passes have
        ended, and then no member can be relieved by another by two or more. */
    method Plan(members: Members, topics: Topics, maxPasses: nat)
      returns (plan: Plan, settled: bool, ghost subs: Subscriptions)
      modifies this
      ensures topics == map[] ==> plan == map[]
      ensures topics != map[] ==> ExactlyOnce(plan, members, topics) && plan.Keys == members.Keys
      ensures topics != map[] ==> fresh(movements) && movements.Valid() && NoOpposites(movements.movements)
      ensures topics != map[] ==> Reads(subs, members, topics) && Follows(plan, Outcome(subs, maxPasses))
      ensures topics != map[] ==> (settled <==> PlanSettles(subs, maxPasses))
      ensures topics != map[] && settled ==> Fair(plan, members)
      ensures topics != map[] && SameTopics(members, topics) ==> EvenPlan(plan, members) && (maxPasses > 0 ==> settled)
      ensures topics != map[] && Limited(members, topics, 2, 1) ==>
                2 * maxPasses > Square(|subs.ofPartition|) ==> settled
    {
      if topics == map[] {
        subs := Subscriptions(map[], map[]);
        return map[], true, subs;
      }
      hide *;
      movements := new PartitionMovements();
      var subscriptions := BuildSubscriptions(members, topics);
      subs := subscriptions;
      ReadsValid(subs, members, topics);
      currentAssignment := NobodyAssigned(members.Keys);
      currentPartitionConsumer := map[];
      var unassignedPartitions := SortedPartitions(subscriptions.ofPartition.Keys);
      var sortedPartitions := SortedByConsumers(subscriptions.ofPartition);
      sortedCurrentSubscriptions := SortMembers(currentAssignment);
      settled := Balance(subscriptions, unassignedPartitions, sortedPartitions, maxPasses);
      NoDupLists(subs, currentAssignment, currentPartitionConsumer);
      plan := WritePlan(currentAssignment);
      WrittenPlan(plan, currentAssignment, currentPartitionConsumer, subs, members, topics, maxPasses, settled);
    }

    /** Gives p to the first member in the sorted list that may own it, that is to a least loaded one. */
    method AssignPartition(subs: Subscriptions, p: TopicPartition) returns (ghost taker: MemberId)
      requires subs.Valid() && Agree(subs, currentAssignment, currentPartitionConsumer)
      requires currentAssignment.Keys == subs.ofMember.Keys
      requires sortedCurrentSubscriptions == SortMembers(currentAssignment)
      requires p !in currentPartitionConsumer && p in subs.ofPartition && subs.ofPartition[p] != []
      modifies this`currentAssignment, this`currentPartitionConsumer, this`sortedCurrentSubscriptions
      ensures sortedCurrentSubscriptions == SortMembers(currentAssignment)
      ensures Agree(subs, currentAssignment, currentPartitionConsumer)
      ensures subs.Allows(taker, p) && LeastLoaded(subs, old(currentAssignment), p, taker)
      ensures PickedBy(subs, old(currentPartitionConsumer), p, taker)
      ensures currentPartitionConsumer == old(currentPartitionConsumer)[p := taker]
      ensures currentAssignment == Appended(old(currentAssignment), p, taker)
      ensures currentAssignment.Keys == old(currentAssignment).Keys
    {
      hide *;
      var members := sortedCurrentSubscriptions;
      var i := FirstAllowed(members, subs, p);
      SearchFinds(subs, currentAssignment, currentPartitionConsumer, p, i);
      var m := members[i];
      taker := m;
      AppendAgrees(subs, currentAssignment, currentPartitionConsumer, p, m);
      currentAssignment := Appended(currentAssignment, p, m);
      currentPartitionConsumer := currentPartitionConsumer[p := m];
      sortedCurrentSubscriptions := SortMembers(currentAssignment);
    }

    /** Assigns greedily, sets aside what cannot take part, moves partitions, and puts the set-aside
        members back. The member lists start empty, as Plan leaves them, so the code is always in its
        initializing case and never restores the assignment it had before moving. */
    method Balance(subs: Subscriptions, unassigned: seq<TopicPartition>, sortedPartitions: seq<TopicPartition>,
                   maxPasses: nat)
      returns (settled: bool)
      requires subs.Valid() && movements.Valid() && movements.movements == map[]
      requires currentAssignment.Keys == subs.ofMember.Keys
      requires sortedCurrentSubscriptions == SortMembers(currentAssignment)
      requires AllEmpty(currentAssignment) && currentPartitionConsumer == map[]
      requires unassigned == SortedPartitions(subs.ofPartition.Keys)
      requires sortedPartitions == SortedByConsumers(subs.ofPartition)
      modifies this`currentAssignment, this`currentPartitionConsumer, this`sortedCurrentSubscriptions, movements
      ensures movements.Valid() && NoOpposites(movements.movements)
      ensures currentAssignment.Keys == subs.ofMember.Keys
      ensures Agree(subs, currentAssignment, currentPartitionConsumer) && Complete(subs, currentPartitionConsumer)
      ensures currentPartitionConsumer == Outcome(subs, maxPasses)
      ensures settled <==> PlanSettles(subs, maxPasses)
      ensures settled ==> LocallyOptimal(subs, currentAssignment, currentPartitionConsumer)
    {
      hide *;
      AlwaysInitializing(sortedCurrentSubscriptions, currentAssignment);
      EmptyAgrees(subs, currentAssignment);
      assert Lists(unassigned, subs.ofPartition.Keys) by { ListsAll(unassigned, subs.ofPartition.Keys); }
      AssignAll(subs, unassigned);
      assert currentPartitionConsumer == FirstOwners(subs) by { FirstOwnersAre(subs); }
      var reassignable := KeepShared(subs, sortedPartitions);
      settled := Rebalance(subs, reassignable, maxPasses);
      OpeningIs(subs, maxPasses);
    }

    /** The rest of balance, once everything is assigned. */
    method Rebalance(subs: Subscriptions, reassignable: seq<TopicPartition>, maxPasses: nat) returns (settled: bool)
      requires subs.Valid() && movements.Valid() && movements.movements == map[]
      requires currentAssignment.Keys == subs.ofMember.Keys
      requires sortedCurrentSubscriptions == SortMembers(currentAssignment)
      requires Agree(subs, currentAssignment, currentPartitionConsumer) && Complete(subs, currentPartitionConsumer)
      requires forall p :: p in reassignable <==> subs.Shared(p)
      modifies this`currentAssignment, this`currentPartitionConsumer, this`sortedCurrentSubscriptions, movements
      ensures movements.Valid() && NoOpposites(movements.movements)
      ensures currentAssignment.Keys == subs.ofMember.Keys
      ensures Agree(subs, currentAssignment, currentPartitionConsumer) && Complete(subs, currentPartitionConsumer)
      ensures var start := old(currentPartitionConsumer);
              var e := Setting(subs, start, Active(subs, start), reassignable);
              && currentPartitionConsumer == After(e, start, maxPasses)
              && (settled <==> Settles(e, start, maxPasses))
      ensures settled ==> LocallyOptimal(subs, currentAssignment, currentPartitionConsumer)
    {
      hide Agree, Complete, SetAsideUnshared, Inv, LocallyOptimal, Subscriptions.Valid, SortMembers, NoOpposites;
      hide Potential, SumSquares, Split, Active, After, MovesAt, Settles;
      var fixedAssignments := SetAside(subs);
      FixedUnshared(subs, currentAssignment, fixedAssignments, currentPartitionConsumer);
      FreshInv(subs, currentAssignment, fixedAssignments, currentPartitionConsumer);
      ghost var start, active := currentPartitionConsumer, currentAssignment;
      var performed;
      performed, settled := PerformReassignments(subs, reassignable, maxPasses);
      PutBackAgrees(subs, start, State(), active, fixedAssignments);
      InvParts(subs, start, State());
      currentAssignment := PutBack(currentAssignment, fixedAssignments);
    }

    method AssignAll(subs: Subscriptions, unassigned: seq<TopicPartition>)
      requires subs.Valid() && Agree(subs, currentAssignment, currentPartitionConsumer)
      requires currentAssignment.Keys == subs.ofMember.Keys
      requires sortedCurrentSubscriptions == SortMembers(currentAssignment)
      requires currentPartitionConsumer == map[]
      requires NoDup(unassigned) && Lists(unassigned, subs.ofPartition.Keys)
      modifies this`currentAssignment, this`currentPartitionConsumer, this`sortedCurrentSubscriptions
      ensures sortedCurrentSubscriptions == SortMembers(currentAssignment)
      ensures currentAssignment.Keys == subs.ofMember.Keys
      ensures Agree(subs, currentAssignment, currentPartitionConsumer) && Complete(subs, currentPartitionConsumer)
      ensures currentPartitionConsumer == Greedy(subs, map[], unassigned)
    {
      hide Agree, Subscriptions.Valid, SortMembers, LeastLoaded, Greedy, Give, PickedBy;
      assert unassigned[0..] == unassigned;
      for k := 0 to |unassigned|
        invariant sortedCurrentSubscriptions == SortMembers(currentAssignment)
        invariant currentAssignment.Keys == subs.ofMember.Keys
        invariant Agree(subs, currentAssignment, currentPartitionConsumer)
        invariant Greedy(subs, currentPartitionConsumer, unassigned[k..]) == Greedy(subs, map[], unassigned)
        invariant forall i :: 0 <= i < |unassigned| ==>
          (unassigned[i] in currentPartitionConsumer <==> i < k && subs.ofPartition[unassigned[i]] != [])
      {
        GreedyStep(subs, currentPartitionConsumer, unassigned, k);
        if subs.ofPartition[unassigned[k]] == [] {
          continue;
        }
        ghost var before := currentPartitionConsumer;
        ghost var taker := AssignPartition(subs, unassigned[k]);
        PickedIsGiven(subs, before, unassigned[k], taker);
      }
      GreedyStop(subs, currentPartitionConsumer, unassigned);
    }

    /** Erases from `current` every member that cannot take part, and returns their lists. */
    method SetAside(subs: Subscriptions) returns (fixed: Assignments)
      requires subs.Valid() && Agree(subs, currentAssignment, currentPartitionConsumer)
      requires currentAssignment.Keys == subs.ofMember.Keys
      requires sortedCurrentSubscriptions == SortMembers(currentAssignment)
      modifies this`currentAssignment, this`sortedCurrentSubscriptions
      ensures sortedCurrentSubscriptions == SortMembers(currentAssignment)
      ensures Split(subs, currentAssignment, fixed, currentPartitionConsumer)
      ensures currentAssignment.Keys == Active(subs, currentPartitionConsumer)
    {
      var members := SortedIds(subs.ofMember.Keys);
      fixed := map[];
      hide *;
      SplitStart(subs, currentAssignment, currentPartitionConsumer);
      for k := 0 to |members|
        invariant sortedCurrentSubscriptions == SortMembers(currentAssignment)
        invariant Split(subs, currentAssignment, fixed, currentPartitionConsumer)
        invariant forall i :: k <= i < |members| ==> members[i] in currentAssignment
        invariant forall i :: 0 <= i < k ==>
          (members[i] in currentAssignment <==> TakesPart(subs, currentPartitionConsumer, members[i]))
      {
        var m := members[k];
        ParticipationMatches(subs, currentAssignment, fixed, currentPartitionConsumer, m);
        if !CanConsumerParticipate(m, currentAssignment, subs) {
          SplitStep(subs, currentAssignment, fixed, currentPartitionConsumer, m);
          fixed := fixed[m := currentAssignment[m]];
          currentAssignment := currentAssignment - {m};
          sortedCurrentSubscriptions := SortMembers(currentAssignment);
          Distinct(members, k);
        }
      }
      ActiveAreLeft(subs, currentAssignment, fixed, currentPartitionConsumer, members);
    }
  }

  lemma ListsAll(ps: seq<TopicPartition>, s: set<TopicPartition>)
    requires ps == SortedPartitions(s)
    ensures NoDup(ps) && Lists(ps, s)
  {
  }

  lemma FirstOwnersAre(subs: Subscriptions)
    ensures FirstOwners(subs) == Greedy(subs, map[], SortedPartitions(subs.ofPartition.Keys))
  {
  }

  lemma OpeningIs(subs: Subscriptions, n: nat)
    ensures var start := FirstOwners(subs);
            var e := Setting(subs, start, Active(subs, start), Reassignables(subs));
            Outcome(subs, n) == After(e, start, n) && (PlanSettles(subs, n) <==> Settles(e, start, n))
  {
  }

  function NobodyAssigned(members: set<MemberId>): (r: Assignments)
    ensures r.Keys == members && AllEmpty(r)
  {
    map m | m in members :: []
  }

  lemma ReadsValid(subs: Subscriptions, members: Members, topics: Topics)
    requires Reads(subs, members, topics)
    ensures subs.Valid() && subs.ofMember.Keys == members.Keys
  {
  }

  lemma NoDupLists(subs: Subscriptions, current: Assignments, owner: Owners)
    requires Agree(subs, current, owner)
    ensures forall m :: m in current ==> NoDup(current[m])
  {
  }

  /** The plan gives every partition to its owner and nothing else. */
  ghost predicate Follows(plan: Plan, owner: Owners) {
    forall m, p :: Gives(plan, m, p) <==> p in owner && owner[p] == m
  }

  lemma WrittenFollows(plan: Plan, current: Assignments, owner: Owners, subs: Subscriptions)
    requires Writes(plan, current) && Agree(subs, current, owner) && current.Keys == subs.ofMember.Keys && subs.Valid()
    ensures Follows(plan, owner)
  {
    forall m, p ensures Gives(plan, m, p) <==> p in owner && owner[p] == m {
      if p in owner && owner[p] == m {
        assert subs.Allows(m, p);
      }
    }
  }

  /** What the written plan is worth. */
  lemma WrittenPlan(plan: Plan, current: Assignments, owner: Owners, subs: Subscriptions, members: Members,
                    topics: Topics, n: nat, settled: bool)
    requires Reads(subs, members, topics) && Writes(plan, current)
    requires Agree(subs, current, owner) && Complete(subs, owner) && current.Keys == subs.ofMember.Keys
    requires owner == Outcome(subs, n) && (settled <==> PlanSettles(subs, n))
    requires settled ==> LocallyOptimal(subs, current, owner)
    ensures ExactlyOnce(plan, members, topics) && plan.Keys == members.Keys && Follows(plan, Outcome(subs, n))
    ensures settled ==> Fair(plan, members)
    ensures SameTopics(members, topics) ==> EvenPlan(plan, members) && (n > 0 ==> settled)
    ensures Limited(members, topics, 2, 1) && 2 * n > Square(|subs.ofPartition|) ==> settled
  {
    hide *;
    ReadsValid(subs, members, topics);
    WrittenExactlyOnce(plan, current, owner, subs, members, topics);
    WrittenFollows(plan, current, owner, subs);
    if settled {
      OptimalIsFair(plan, current, owner, subs, members, topics);
    }
    if SameTopics(members, topics) {
      UniformIsEven(plan, subs, members, topics, n);
    }
    if Limited(members, topics, 2, 1) && 2 * n > Square(|subs.ofPartition|) {
      LimitedSettles(subs, members, topics, n);
    }
  }

  /** The partitions a plan gives to m. */
  ghost function Given(plan: Plan, m: MemberId): set<TopicPartition> {
    set t, i | m in plan && t in plan[m] && i in plan[m][t] :: TopicPartition(t, i)
  }

  /** A member holding a partition another one subscribes to holds at most one more than that one. */
  ghost predicate Fair(plan: Plan, members: Members) {
    forall m, n, p :: Gives(plan, m, p) && m != MemberId("") && Subscribed(members, n, p.topic) ==>
      |Given(plan, m)| <= |Given(plan, n)| + 1
  }

  lemma GivenSize(plan: Plan, current: Assignments, m: MemberId)
    requires Writes(plan, current) && m in current && NoDup(current[m])
    ensures |Given(plan, m)| == |current[m]|
  {
    NoDupSize(current[m]);
    forall p ensures p in Given(plan, m) <==> p in Elems(current[m]) {
      assert Gives(plan, m, p) <==> p in current[m];
    }
    assert Given(plan, m) == Elems(current[m]);
  }

  lemma OptimalIsFair(plan: Plan, current: Assignments, owner: Owners, subs: Subscriptions, members: Members,
                      topics: Topics)
    requires Reads(subs, members, topics) && Writes(plan, current)
    requires Agree(subs, current, owner) && current.Keys == subs.ofMember.Keys
    requires LocallyOptimal(subs, current, owner)
    ensures Fair(plan, members)
  {
    forall m, n, p | Gives(plan, m, p) && m != MemberId("") && Subscribed(members, n, p.topic)
      ensures |Given(plan, m)| <= |Given(plan, n)| + 1
    {
      assert p in current[m] && p in owner && owner[p] == m;
      assert subs.Allows(m, p) && subs.Allows(n, p);
      GivenSize(plan, current, m);
      GivenSize(plan, current, n);
      if m != n {
        TwoOwnersShared(subs, p, m, n);
        assert Load(current, owner[p]) <= Load(current, n) + 1;
      }
    }
  }

  /** Any two members are given numbers of partitions that differ by at most one. */
  ghost predicate EvenPlan(plan: Plan, members: Members) {
    forall m, n :: m in members && n in members ==> |Given(plan, m)| <= |Given(plan, n)| + 1
  }

  lemma GivenIsHeld(plan: Plan, owner: Owners, m: MemberId)
    requires Follows(plan, owner)
    ensures Given(plan, m) == Held(owner, m)
  {
    forall p ensures p in Given(plan, m) <==> p in Held(owner, m) {
      assert Gives(plan, m, p) <==> p in owner && owner[p] == m;
    }
  }

  /** When all members subscribe to the same known topics, every plan is even, however few passes are
      allowed, and the first pass is the last. */
  lemma UniformIsEven(plan: Plan, subs: Subscriptions, members: Members, topics: Topics, n: nat)
    requires Reads(subs, members, topics) && SameTopics(members, topics) && Follows(plan, Outcome(subs, n))
    ensures EvenPlan(plan, members)
    ensures n > 0 ==> PlanSettles(subs, n)
  {
    SameTopicsAlike(subs, members, topics);
    AlikeNeverMoves(subs, n);
    hide Follows, Given, Outcome, PlanSettles, SameTopics, Held;
    forall m | m in members ensures |Given(plan, m)| == Count(Outcome(subs, n), m) {
      GivenIsHeld(plan, Outcome(subs, n), m);
      CountIs(Outcome(subs, n), m);
    }
  }

  lemma CountIs(owner: Owners, m: MemberId)
    ensures Count(owner, m) == |Held(owner, m)|
  {
  }

  /** In a fair exactly-once plan two members with the same subscriptions are even, whatever the others
      subscribe to. */
  lemma TwinsAreEven(plan: Plan, members: Members, topics: Topics, m: MemberId, n: MemberId)
    requires ExactlyOnce(plan, members, topics) && Fair(plan, members)
    requires m in members && n in members && m != MemberId("")
    requires forall t :: t in members[m] <==> t in members[n]
    ensures |Given(plan, m)| <= |Given(plan, n)| + 1
  {
    if Given(plan, m) != {} {
      var p :| p in Given(plan, m);
      assert Gives(plan, m, p);
      assert Subscribed(members, n, p.topic);
    }
  }

  lemma Distinct(s: seq<MemberId>, k: nat)
    requires k < |s| && NoDup(s)
    ensures forall i :: 0 <= i < |s| && i != k ==> s[i] != s[k]
  {
  }

  /** Every member is either active or set aside, with the list the owner map gives it, and nobody
      set aside may own a shared partition. */
  ghost predicate Split(subs: Subscriptions, current: Assignments, fixed: Assignments, owner: Owners) {
    && subs.Valid()
    && Agree(subs, current, owner) && Agree(subs, fixed, owner)
    && fixed.Keys !! current.Keys && fixed.Keys + current.Keys == subs.ofMember.Keys
    && (forall m, p :: m in fixed && subs.Allows(m, p) ==> !subs.Shared(p))
  }

  lemma SplitStart(subs: Subscriptions, current: Assignments, owner: Owners)
    requires subs.Valid() && Agree(subs, current, owner) && current.Keys == subs.ofMember.Keys
    ensures Split(subs, current, map[], owner)
  {
    PartAgrees(subs, current, map[], owner);
  }

  lemma SplitStep(subs: Subscriptions, current: Assignments, fixed: Assignments, owner: Owners, m: MemberId)
    requires Split(subs, current, fixed, owner) && m in current && !CanConsumerParticipate(m, current, subs)
    ensures Split(subs, current - {m}, fixed[m := current[m]], owner)
  {
    CannotParticipate(m, current, owner, subs);
    hide Agree, Subscriptions.Valid, CanConsumerParticipate;
    var part := map[m := current[m]];
    PartAgrees(subs, current, part, owner);
    UnionAgrees(subs, fixed, part, owner);
    PartAgrees(subs, current, current - {m}, owner);
    assert fixed[m := current[m]] == fixed + part;
  }

  lemma ParticipationMatches(subs: Subscriptions, current: Assignments, fixed: Assignments, owner: Owners, m: MemberId)
    requires Split(subs, current, fixed, owner) && m in current
    ensures CanConsumerParticipate(m, current, subs) <==> TakesPart(subs, owner, m)
  {
    TakesPartByLists(subs, current, owner, m);
  }

  lemma ActiveAreLeft(subs: Subscriptions, current: Assignments, fixed: Assignments, owner: Owners,
                      members: seq<MemberId>)
    requires Split(subs, current, fixed, owner) && forall m :: m in members <==> m in subs.ofMember
    requires forall i :: 0 <= i < |members| ==> (members[i] in current <==> TakesPart(subs, owner, members[i]))
    ensures current.Keys == Active(subs, owner)
  {
    hide TakesPart;
    forall m ensures m in current <==> m in Active(subs, owner) {
      if m in subs.ofMember {
        var i :| 0 <= i < |members| && members[i] == m;
      }
      assert m in current ==> m in subs.ofMember.Keys;
    }
  }

  lemma FixedUnshared(subs: Subscriptions, current: Assignments, fixed: Assignments, owner: Owners)
    requires Split(subs, current, fixed, owner)
    ensures SetAsideUnshared(subs, current)
  {
    forall m, p | m !in current && subs.Allows(m, p) ensures !subs.Shared(p) {
      assert m in subs.ofMember.Keys;
    }
  }

  /** The first `k` partitions have been looked at, and the unshared ones among them dropped; the order
      is kept. */
  ghost predicate SharedSoFar(subs: Subscriptions, partitions: seq<TopicPartition>, k: nat, kept: seq<TopicPartition>) {
    && NoDup(kept) && SortedBy(kept, ByConsumers(subs.ofPartition))
    && (forall p :: p in kept ==> p in subs.ofPartition)
    && (forall p :: subs.Shared(p) ==> p in kept)
    && (forall i :: 0 <= i < k <= |partitions| && partitions[i] in kept ==> subs.Shared(partitions[i]))
  }

  lemma SharedSoFarStep(subs: Subscriptions, partitions: seq<TopicPartition>, k: nat, kept: seq<TopicPartition>)
    requires k < |partitions| && SharedSoFar(subs, partitions, k, kept)
    ensures var p := partitions[k];
            SharedSoFar(subs, partitions, k + 1, if subs.Shared(p) then kept else RemoveAll(kept, p))
  {
    RemoveAllKeepsOrder(kept, partitions[k], ByConsumers(subs.ofPartition));
    hide RemoveAll, Subscriptions.Shared, NoDup, SortedBy;
  }

  lemma SharedAtEnd(subs: Subscriptions, partitions: seq<TopicPartition>, kept: seq<TopicPartition>)
    requires Lists(partitions, subs.ofPartition.Keys) && SharedSoFar(subs, partitions, |partitions|, kept)
    ensures kept == Reassignables(subs)
  {
    forall p | p in kept ensures subs.Shared(p) {
      assert p in partitions;
    }
    ByConsumersOrder(subs.ofPartition);
    hide ByConsumers, Subscriptions.Shared;
    SortedUnique(kept, Reassignables(subs), ByConsumers(subs.ofPartition));
  }

  /** Drops the partitions that cannot be reassigned. */
  method KeepShared(subs: Subscriptions, sortedPartitions: seq<TopicPartition>) returns (kept: seq<TopicPartition>)
    requires sortedPartitions == SortedByConsumers(subs.ofPartition)
    ensures kept == Reassignables(subs)
  {
    var partitions := SortedPartitions(subs.ofPartition.Keys);
    kept := sortedPartitions;
    assert Lists(partitions, subs.ofPartition.Keys);
    assert SharedSoFar(subs, partitions, 0, kept);
    hide *;
    for k := 0 to |partitions|
      invariant SharedSoFar(subs, partitions, k, kept)
    {
      SharedSoFarStep(subs, partitions, k, kept);
      if !subs.Shared(partitions[k]) {
        kept := RemoveAll(kept, partitions[k]);
      }
    }
    SharedAtEnd(subs, partitions, kept);
  }

  /** The test balance makes before assigning anything. */
  predicate Initializing(sorted: seq<MemberId>, current: Assignments) {
    sorted == [] || (sorted[0] in current && current[sorted[0]] == [])
  }

  lemma AlwaysInitializing(sorted: seq<MemberId>, current: Assignments)
    requires sorted == SortMembers(current) && AllEmpty(current)
    ensures Initializing(sorted, current)
  {
    if sorted != [] {
      assert sorted[0] in current;
    }
  }

  ghost predicate AllEmpty(current: Assignments) {
    forall m :: m in current ==> current[m] == []
  }

  ghost predicate Lists(s: seq<TopicPartition>, keys: set<TopicPartition>) {
    forall p :: p in s <==> p in keys
  }

  function RemoveAll(s: seq<TopicPartition>, p: TopicPartition): (r: seq<TopicPartition>)
    ensures forall q :: q in r <==> q in s && q != p
  {
    if s == [] then []
    else
      assert s == [s[0]] + s[1..];
      (if s[0] == p then [] else [s[0]]) + RemoveAll(s[1..], p)
  }

  lemma {:induction false} RemoveAllKeepsOrder(s: seq<TopicPartition>, p: TopicPartition,
                                                le: (TopicPartition, TopicPartition) -> bool)
    requires NoDup(s) && SortedBy(s, le)
    ensures NoDup(RemoveAll(s, p)) && SortedBy(RemoveAll(s, p), le)
  {
    if s != [] {
      var rest := RemoveAll(s[1..], p);
      assert forall k :: 0 <= k < |s[1..]| ==> s[1..][k] == s[k + 1];
      RemoveAllKeepsOrder(s[1..], p, le);
      forall k | 0 <= k < |rest| ensures le(s[0], rest[k]) && rest[k] != s[0] {
        assert rest[k] in s[1..];
        var j :| 0 <= j < |s[1..]| && s[1..][j] == rest[k];
        assert s[j + 1] == rest[k];
      }
    }
  }

  function PutBack(current: Assignments, fixed: Assignments): Assignments {
    current + fixed
  }

  lemma EmptyAgrees(subs: Subscriptions, current: Assignments)
    requires current.Keys == subs.ofMember.Keys && AllEmpty(current)
    ensures Agree(subs, current, map[])
  {
  }

  lemma PartAgrees(subs: Subscriptions, a: Assignments, b: Assignments, owner: Owners)
    requires Agree(subs, a, owner) && b.Keys <= a.Keys && forall m :: m in b ==> b[m] == a[m]
    ensures Agree(subs, b, owner)
  {
    forall m, p | m in b ensures p in b[m] <==> p in owner && owner[p] == m {
      assert p in a[m] <==> p in owner && owner[p] == m;
    }
  }

  lemma UnionAgrees(subs: Subscriptions, a: Assignments, b: Assignments, owner: Owners)
    requires Agree(subs, a, owner) && Agree(subs, b, owner)
    ensures Agree(subs, a + b, owner)
  {
    forall m, p | m in a + b ensures p in (a + b)[m] <==> p in owner && owner[p] == m {
      assert m in a ==> (p in a[m] <==> p in owner && owner[p] == m);
      assert m in b ==> (p in b[m] <==> p in owner && owner[p] == m);
    }
  }

  /** Before the first move the record is empty, as is the ownership difference. */
  lemma FreshInv(subs: Subscriptions, current: Assignments, fixed: Assignments, owner: Owners)
    requires Split(subs, current, fixed, owner) && Complete(subs, owner) && SetAsideUnshared(subs, current)
    ensures Inv(subs, owner, Ledger(current, owner, map[]))
  {
  }

  /** Only shared partitions change owner, and only between active members. */
  lemma MoversAreActive(subs: Subscriptions, start: Owners, b: Ledger)
    requires Inv(subs, start, b)
    ensures forall p :: p in start && start[p] != b.owner[p] ==> start[p] in b.current && b.owner[p] in b.current
  {
    forall p | p in start && start[p] != b.owner[p] ensures start[p] in b.current && b.owner[p] in b.current {
      TwoOwnersShared(subs, p, start[p], b.owner[p]);
    }
  }

  lemma UntouchedAgrees(subs: Subscriptions, fixed: Assignments, start: Owners, owner: Owners)
    requires Agree(subs, fixed, start) && start.Keys == owner.Keys
    requires forall p :: p in owner ==> subs.Allows(owner[p], p)
    requires forall p :: p in start && start[p] != owner[p] ==> start[p] !in fixed && owner[p] !in fixed
    ensures Agree(subs, fixed, owner)
  {
    forall m, p | m in fixed ensures p in fixed[m] <==> p in owner && owner[p] == m {
      assert p in fixed[m] <==> p in start && start[p] == m;
    }
  }

  /** The lists of the set-aside members are still right: what they own was never moved. */
  lemma PutBackAgrees(subs: Subscriptions, start: Owners, b: Ledger, active: Assignments, fixed: Assignments)
    requires Inv(subs, start, b)
    requires Split(subs, active, fixed, start) && b.current.Keys == active.Keys
    ensures Agree(subs, PutBack(b.current, fixed), b.owner) && PutBack(b.current, fixed).Keys == subs.ofMember.Keys
    ensures forall p :: p in start && start[p] in fixed ==> b.owner[p] == start[p]
    ensures LocallyOptimal(subs, b.current, b.owner) ==> LocallyOptimal(subs, PutBack(b.current, fixed), b.owner)
  {
    MoversAreActive(subs, start, b);
    assert forall p :: p in b.owner ==> subs.Allows(b.owner[p], p);
    OptimalKept(subs, b, fixed);
    hide Agree, SetAsideUnshared, Subscriptions.Valid, Complete, NoOpposites, LocallyOptimal;
    UntouchedAgrees(subs, fixed, start, b.owner);
    UnionAgrees(subs, b.current, fixed, b.owner);
  }

  lemma OptimalKept(subs: Subscriptions, b: Ledger, fixed: Assignments)
    requires SetAsideUnshared(subs, b.current) && fixed.Keys !! b.current.Keys
    requires forall p :: p in b.owner ==> subs.Allows(b.owner[p], p)
    ensures LocallyOptimal(subs, b.current, b.owner) ==> LocallyOptimal(subs, PutBack(b.current, fixed), b.owner)
  {
    if LocallyOptimal(subs, b.current, b.owner) {
      var all := PutBack(b.current, fixed);
      forall p, m | subs.Shared(p) && p in b.owner && b.owner[p] != MemberId("") && subs.Allows(m, p)
        ensures Load(all, b.owner[p]) <= Load(all, m) + 1
      {
        assert m in b.current && b.owner[p] in b.current;
        assert Load(all, m) == Load(b.current, m) && Load(all, b.owner[p]) == Load(b.current, b.owner[p]);
      }
    }
  }

  /** The search for a least loaded member finds one when somebody may own p. */
  lemma SearchFinds(subs: Subscriptions, current: Assignments, owner: Owners, p: TopicPartition, i: nat)
    requires subs.Valid() && Agree(subs, current, owner) && current.Keys == subs.ofMember.Keys
    requires p in subs.ofPartition && subs.ofPartition[p] != []
    requires i <= |SortMembers(current)| && (i < |SortMembers(current)| ==> subs.Allows(SortMembers(current)[i], p))
    requires forall j :: 0 <= j < i ==> !subs.Allows(SortMembers(current)[j], p)
    ensures i < |SortMembers(current)| && subs.Allows(SortMembers(current)[i], p) && SortMembers(current)[i] in current
    ensures LeastLoaded(subs, current, p, SortMembers(current)[i])
    ensures PickedBy(subs, owner, p, SortMembers(current)[i])
  {
    var members := SortMembers(current);
    AllowedAreMembers(subs, current, p, members);
    hide Subscriptions.Valid, SortMembers, Subscriptions.Allows, Agree, Pick;
    assert i < |members|;
    FirstAllowedIsLeast(subs, current, p, members, i);
    FirstIsPick(subs, current, owner, p, i);
  }

  lemma AllowedAreMembers(subs: Subscriptions, current: Assignments, p: TopicPartition, members: seq<MemberId>)
    requires subs.Valid() && current.Keys == subs.ofMember.Keys && p in subs.ofPartition && subs.ofPartition[p] != []
    requires forall m :: m in current ==> m in members
    ensures forall m :: subs.Allows(m, p) ==> m in members
    ensures exists k :: 0 <= k < |members| && subs.Allows(members[k], p)
  {
    assert subs.Allows(subs.ofPartition[p][0], p);
  }

  /** The search both assignment and reassignment make: the first listed member that may own p. */
  method FirstAllowed(members: seq<MemberId>, subs: Subscriptions, p: TopicPartition) returns (i: nat)
    requires subs.Valid()
    ensures i <= |members| && (i < |members| ==> subs.Allows(members[i], p))
    ensures forall j :: 0 <= j < i ==> !subs.Allows(members[j], p)
  {
    for k := 0 to |members|
      invariant forall j :: 0 <= j < k ==> !subs.Allows(members[j], p)
    {
      if members[k] in subs.ofMember && Contains(subs.ofMember[members[k]], p) {
        return k;
      }
    }
    return |members|;
  }

  /** m may own p and no member that may own it has a smaller load. */
  ghost predicate LeastLoaded(subs: Subscriptions, current: Assignments, p: TopicPartition, m: MemberId) {
    subs.Allows(m, p) && m in current && forall n :: subs.Allows(n, p) ==> Load(current, m) <= Load(current, n)
  }

  function Appended(current: Assignments, p: TopicPartition, m: MemberId): (r: Assignments)
    ensures r.Keys == current.Keys + {m}
  {
    current[m := (if m in current then current[m] else []) + [p]]
  }

  lemma AppendAgrees(subs: Subscriptions, current: Assignments, owner: Owners, p: TopicPartition, m: MemberId)
    requires Agree(subs, current, owner) && m in current && p !in owner && subs.Allows(m, p)
    ensures Agree(subs, Appended(current, p, m), owner[p := m])
  {
    var after, given := Appended(current, p, m), owner[p := m];
    assert p !in current[m];
    assert NoDup(after[m]) by {
      assert forall k :: 0 <= k < |current[m]| ==> current[m][k] in current[m];
    }
    forall n, q | n in after ensures q in after[n] <==> q in given && given[q] == n {
      assert q in current[n] <==> q in owner && owner[q] == n;
    }
  }

  lemma MovableParts(subs: Subscriptions, b: Ledger, p: TopicPartition, taker: MemberId)
    requires Movable(subs, b, p, taker)
    ensures p in b.owner && subs.Allows(taker, p) && taker != b.owner[p]
  {
  }

  lemma GoodTakerParts(subs: Subscriptions, b: Ledger, p: TopicPartition, taker: MemberId)
    requires GoodTaker(subs, b, p, taker)
    ensures Movable(subs, b, p, taker)
  {
  }

  lemma InvParts(subs: Subscriptions, start: Owners, b: Ledger)
    requires Inv(subs, start, b)
    ensures subs.Valid() && Agree(subs, b.current, b.owner) && Complete(subs, b.owner)
    ensures SetAsideUnshared(subs, b.current)
    ensures NoOpposites(b.record)
  {
  }

  lemma ReassignKeys(subs: Subscriptions, start: Owners, b: Ledger, p: TopicPartition, taker: MemberId)
    requires Inv(subs, start, b) && Movable(subs, b, p, taker)
    ensures Reassign(subs, start, b, p, taker).current.Keys == b.current.Keys
  {
    ChosenIsMovable(subs, start, b, p, taker);
  }

  lemma GreedyStep(subs: Subscriptions, now: Owners, ps: seq<TopicPartition>, k: nat)
    requires k < |ps|
    ensures Greedy(subs, now, ps[k..]) == Greedy(subs, Give(subs, now, ps[k]), ps[k + 1..])
    ensures ps[k] in subs.ofPartition && subs.ofPartition[ps[k]] == [] ==> Give(subs, now, ps[k]) == now
  {
    assert ps[k..][1..] == ps[k + 1..];
    hide Pick;
  }

  lemma GreedyStop(subs: Subscriptions, now: Owners, ps: seq<TopicPartition>)
    ensures Greedy(subs, now, ps[|ps|..]) == now
  {
  }

  lemma PickedIsGiven(subs: Subscriptions, now: Owners, p: TopicPartition, taker: MemberId)
    requires PickedBy(subs, now, p, taker)
    ensures Give(subs, now, p) == now[p := taker]
  {
  }

  /** taker is the lightest member that may own p. */
  ghost predicate PickedBy(subs: Subscriptions, owner: Owners, p: TopicPartition, taker: MemberId) {
    p in subs.ofPartition && subs.ofPartition[p] != [] && taker == Pick(subs, owner, p)
  }

  lemma FirstAllowedIsPicked(subs: Subscriptions, start: Owners, b: Ledger, p: TopicPartition, i: nat)
    requires Inv(subs, start, b) && Reassignable(subs, b, p)
    requires i < |SortMembers(b.current)| && subs.Allows(SortMembers(b.current)[i], p)
    requires forall j :: 0 <= j < i ==> !subs.Allows(SortMembers(b.current)[j], p)
    ensures PickedBy(subs, b.owner, p, SortMembers(b.current)[i])
  {
    RivalsAreActive(subs, start, b, p);
    FirstIsPick(subs, b.current, b.owner, p, i);
  }

  lemma SameKeys(subs: Subscriptions, start: Owners, b: Ledger)
    requires Inv(subs, start, b)
    ensures start.Keys == b.owner.Keys
  {
  }

  /** One visit: the ownership it leads to, whether anything moved, and what that means. */
  ghost predicate VisitDone(e: Setting, before: Ledger, b: Ledger, p: TopicPartition, moved: bool) {
    && e.start.Keys == before.owner.Keys && b.current.Keys == before.current.Keys
    && b.owner == Visit(e, before.owner, p)
    && (moved <==> Wanted(e.subs, before.owner, p))
    && Potential(b) <= Potential(before)
    && (!moved ==> b == before && Settled(e.subs, b, p))
    && (moved ==> exists taker :: Relieves(e, before, b, p, taker))
  }

  ghost predicate Relieves(e: Setting, before: Ledger, b: Ledger, p: TopicPartition, taker: MemberId) {
    && Inv(e.subs, e.start, before) && GoodTaker(e.subs, before, p, taker)
    && b == Reassign(e.subs, e.start, before, p, taker)
  }

  ghost predicate NoneLighter(subs: Subscriptions, b: Ledger, p: TopicPartition)
    requires p in b.owner
  {
    forall m :: subs.Allows(m, p) ==> Load(b.current, b.owner[p]) <= Load(b.current, m) + 1
  }

  /** No move is right when no member that may own p is lighter by two. */
  lemma NotWanted(e: Setting, b: Ledger, p: TopicPartition)
    requires Inv(e.subs, e.start, b)
    ensures !(p in b.owner && b.owner[p] != MemberId("") && e.subs.Shared(p)) ==> VisitDone(e, b, b, p, false)
    ensures p in b.owner && NoneLighter(e.subs, b, p) ==> VisitDone(e, b, b, p, false)
  {
    hide Load, Potential;
    SameKeys(e.subs, e.start, b);
    WantedByLoad(e.subs, e.start, b, p);
  }

  /** The reassignment of a wanted partition is the visit. */
  lemma VisitMoves(e: Setting, b: Ledger, p: TopicPartition, taker: MemberId)
    requires Inv(e.subs, e.start, b) && GoodTaker(e.subs, b, p, taker) && PickedBy(e.subs, b.owner, p, taker)
    requires e.subs.Shared(p) && b.owner[p] != MemberId("")
    ensures Movable(e.subs, b, p, taker)
    ensures VisitDone(e, b, Reassign(e.subs, e.start, b, p, taker), p, true)
  {
    SameKeys(e.subs, e.start, b);
    WantedByLoad(e.subs, e.start, b, p);
    ReassignIsServe(e.subs, e.start, b, p, taker);
    ReassignKeepsPotential(e.subs, e.start, b, p, taker);
    ReassignKeys(e.subs, e.start, b, p, taker);
    hide Potential, Load, Inv, Reassign;
    assert Relieves(e, b, Reassign(e.subs, e.start, b, p, taker), p, taker);
  }

  /** After k visits of a pass, what is left to visit leads where the whole pass does. */
  ghost predicate PassSoFar(e: Setting, before: Owners, now: Owners, ps: seq<TopicPartition>, k: nat, modified: bool)
    requires e.start.Keys == before.Keys == now.Keys && k <= |ps|
  {
    && Pass(e, before, ps).0 == Pass(e, now, ps[k..]).0
    && (Pass(e, before, ps).1 > 0 <==> modified || Pass(e, now, ps[k..]).1 > 0)
  }

  lemma PassStart(e: Setting, now: Owners, ps: seq<TopicPartition>)
    requires e.start.Keys == now.Keys
    ensures PassSoFar(e, now, now, ps, 0, false)
  {
    assert ps[0..] == ps;
  }

  lemma PassStep(e: Setting, before: Owners, now: Owners, ps: seq<TopicPartition>, k: nat, modified: bool)
    requires e.start.Keys == before.Keys == now.Keys && k < |ps|
    requires PassSoFar(e, before, now, ps, k, modified) && !Even(e, now)
    ensures PassSoFar(e, before, Visit(e, now, ps[k]), ps, k + 1, modified || Wanted(e.subs, now, ps[k]))
  {
    assert ps[k..][1..] == ps[k + 1..];
    hide Even, Visit, Wanted;
  }

  lemma PassCut(e: Setting, before: Owners, now: Owners, ps: seq<TopicPartition>, k: nat, modified: bool)
    requires e.start.Keys == before.Keys == now.Keys && k <= |ps|
    requires PassSoFar(e, before, now, ps, k, modified) && (Even(e, now) || k == |ps|)
    ensures now == Pass(e, before, ps).0 && (modified <==> Pass(e, before, ps).1 > 0)
  {
  }

  /** A pass after k visits: where it leads, what it has not raised, and what is settled so far. */
  ghost predicate PassedTo(e: Setting, before: Ledger, b: Ledger, ps: seq<TopicPartition>, k: nat, modified: bool) {
    && k <= |ps| && b.current.Keys == e.active
    && e.start.Keys == before.owner.Keys == b.owner.Keys
    && PassSoFar(e, before.owner, b.owner, ps, k, modified)
    && Potential(b) <= Potential(before)
    && (!modified ==> b == before && forall i :: 0 <= i < k ==> Settled(e.subs, b, ps[i]))
  }

  lemma PassBegins(e: Setting, b: Ledger, ps: seq<TopicPartition>)
    requires Inv(e.subs, e.start, b) && b.current.Keys == e.active
    ensures PassedTo(e, b, b, ps, 0, false)
  {
    PassStart(e, b.owner, ps);
  }

  lemma PassedParts(e: Setting, before: Ledger, b: Ledger, ps: seq<TopicPartition>, k: nat, modified: bool)
    requires PassedTo(e, before, b, ps, k, modified)
    ensures b.current.Keys == e.active && e.start.Keys == b.owner.Keys
  {
  }

  lemma PassGoesOn(e: Setting, before: Ledger, b: Ledger, c: Ledger, ps: seq<TopicPartition>, k: nat, modified: bool,
                   moved: bool)
    requires PassedTo(e, before, b, ps, k, modified) && k < |ps| && !Even(e, b.owner)
    requires VisitDone(e, b, c, ps[k], moved)
    ensures PassedTo(e, before, c, ps, k + 1, modified || moved)
  {
    hide Potential, Settled, Even, Visit, Wanted, PassSoFar, Relieves;
    PassStep(e, before.owner, b.owner, ps, k, modified);
  }

  /** A whole pass: the ownership it leads to, whether anything moved, and what that means. */
  ghost predicate PassDone(e: Setting, before: Ledger, b: Ledger, ps: seq<TopicPartition>, modified: bool) {
    && e.start.Keys == before.owner.Keys && b.current.Keys == e.active
    && b.owner == Pass(e, before.owner, ps).0
    && (modified <==> Pass(e, before.owner, ps).1 > 0)
    && Potential(b) <= Potential(before)
    && (!modified ==> b == before && LocallyOptimal(e.subs, b.current, b.owner))
  }

  lemma PassEnds(e: Setting, before: Ledger, b: Ledger, ps: seq<TopicPartition>, k: nat, modified: bool)
    requires PassedTo(e, before, b, ps, k, modified)
    requires (Even(e, b.owner) && LocallyOptimal(e.subs, b.current, b.owner)) || k == |ps|
    requires forall p :: e.subs.Shared(p) ==> p in ps
    ensures PassDone(e, before, b, ps, modified)
  {
    hide Potential, Settled, Even, PassSoFar, LocallyOptimal;
    PassCut(e, before.owner, b.owner, ps, k, modified);
    if k == |ps| && !modified {
      AllSettledIsOptimal(e.subs, b, ps);
    }
  }

  /** The loop after some passes: it goes on exactly while every pass so far has moved something. */
  ghost predicate Looped(e: Setting, before: Ledger, b: Ledger, passes: nat, performed: bool, modified: bool) {
    && e.start == before.owner && b.current.Keys == e.active && e.start.Keys == b.owner.Keys
    && b.owner == After(e, e.start, passes)
    && (modified ==> forall j :: 0 <= j < passes ==> MovesAt(e, e.start, j) > 0)
    && (!modified ==> passes > 0 && MovesAt(e, e.start, passes - 1) == 0)
    && (performed <==> passes > 0 && MovesAt(e, e.start, 0) > 0)
    && (!performed ==> b == before)
    && Potential(b) <= Potential(before)
    && (!modified ==> LocallyOptimal(e.subs, b.current, b.owner))
    && before.record == map[]
  }

  lemma LoopedStart(e: Setting, before: Ledger)
    requires Inv(e.subs, e.start, before) && e.start == before.owner && before.current.Keys == e.active
    ensures Looped(e, before, before, 0, false, true)
  {
  }

  lemma LoopedKeys(e: Setting, before: Ledger, b: Ledger, passes: nat, performed: bool, modified: bool)
    requires Looped(e, before, b, passes, performed, modified)
    ensures b.current.Keys == e.active
  {
  }

  lemma LoopedStep(e: Setting, before: Ledger, b: Ledger, c: Ledger, passes: nat, performed: bool, modified: bool)
    requires Looped(e, before, b, passes, performed, true) && PassDone(e, b, c, e.order, modified)
    ensures Looped(e, before, c, passes + 1, performed || modified, modified)
  {
    hide Pass, Potential, LocallyOptimal;
    assert MovesAt(e, e.start, passes) == Pass(e, b.owner, e.order).1;
    assert After(e, e.start, passes + 1) == Pass(e, b.owner, e.order).0;
    if passes > 0 {
      assert MovesAt(e, e.start, 0) > 0;
    }
  }

  lemma LoopedEnd(e: Setting, before: Ledger, b: Ledger, passes: nat, n: nat, performed: bool, modified: bool)
    requires Looped(e, before, b, passes, performed, modified) && passes <= n && (modified ==> passes == n)
    ensures b.owner == After(e, e.start, n) && (!modified <==> Settles(e, e.start, n))
    ensures performed <==> n > 0 && MovesAt(e, e.start, 0) > 0
    ensures !performed ==> b == before
    ensures Potential(b) <= Potential(before) && Squares(b) <= Squares(before)
    ensures !modified ==> LocallyOptimal(e.subs, b.current, b.owner)
    ensures b.current.Keys == e.active
  {
    hide Pass, After, MovesAt, Squares, LocallyOptimal;
    if !modified {
      StaysSettled(e, e.start, passes - 1, passes);
      StaysSettled(e, e.start, passes - 1, n);
    }
  }

  /** Somebody allowed to own p is lighter than its owner by two or more. */
  ghost predicate Reassignable(subs: Subscriptions, b: Ledger, p: TopicPartition) {
    p in b.owner && exists m :: subs.Allows(m, p) && Load(b.current, b.owner[p]) > Load(b.current, m) + 1
  }

  /** p is not reassignable, or it has no named owner or no rival. */
  ghost predicate Settled(subs: Subscriptions, b: Ledger, p: TopicPartition) {
    subs.Shared(p) && p in b.owner && b.owner[p] != MemberId("") ==>
      forall m :: subs.Allows(m, p) ==> Load(b.current, b.owner[p]) <= Load(b.current, m) + 1
  }

  lemma AllSettledIsOptimal(subs: Subscriptions, b: Ledger, reassignable: seq<TopicPartition>)
    requires forall p :: subs.Shared(p) ==> p in reassignable
    requires forall i :: 0 <= i < |reassignable| ==> Settled(subs, b, reassignable[i])
    ensures LocallyOptimal(subs, b.current, b.owner)
  {
    forall p, m | subs.Shared(p) && p in b.owner && b.owner[p] != MemberId("") && subs.Allows(m, p)
      ensures Load(b.current, b.owner[p]) <= Load(b.current, m) + 1
    {
      var i :| 0 <= i < |reassignable| && reassignable[i] == p;
      assert Settled(subs, b, reassignable[i]);
    }
  }

  lemma RivalsAreActive(subs: Subscriptions, start: Owners, b: Ledger, p: TopicPartition)
    requires Inv(subs, start, b) && Reassignable(subs, b, p)
    ensures forall m :: subs.Allows(m, p) ==> m in b.current
  {
    var o :| subs.Allows(o, p) && Load(b.current, b.owner[p]) > Load(b.current, o) + 1;
    TwoOwnersShared(subs, p, o, b.owner[p]);
  }

  lemma SomeMemberAllowed(subs: Subscriptions, start: Owners, b: Ledger, p: TopicPartition)
    requires Inv(subs, start, b) && Reassignable(subs, b, p)
    ensures exists i :: 0 <= i < |SortMembers(b.current)| && subs.Allows(SortMembers(b.current)[i], p)
  {
    RivalsAreActive(subs, start, b, p);
    assert b.owner[p] in SortMembers(b.current);
  }

  lemma FirstAllowedIsLeast(subs: Subscriptions, current: Assignments, p: TopicPartition, members: seq<MemberId>,
                            i: nat)
    requires forall m :: subs.Allows(m, p) ==> m in members
    requires forall j, k :: 0 <= j < k < |members| ==> Load(current, members[j]) <= Load(current, members[k])
    requires i < |members| && forall j :: 0 <= j < i ==> !subs.Allows(members[j], p)
    ensures forall m :: subs.Allows(m, p) ==> Load(current, members[i]) <= Load(current, m)
  {
    forall m | subs.Allows(m, p) ensures Load(current, members[i]) <= Load(current, m) {
      var k :| 0 <= k < |members| && members[k] == m;
    }
  }

  lemma FirstAllowedIsGood(subs: Subscriptions, start: Owners, b: Ledger, p: TopicPartition, i: nat)
    requires Inv(subs, start, b) && Reassignable(subs, b, p)
    requires i < |SortMembers(b.current)| && subs.Allows(SortMembers(b.current)[i], p)
    requires forall j :: 0 <= j < i ==> !subs.Allows(SortMembers(b.current)[j], p)
    ensures GoodTaker(subs, b, p, SortMembers(b.current)[i])
  {
    RivalsAreActive(subs, start, b, p);
    FirstOfActiveIsGood(subs, b, p, i);
  }

  lemma FirstOfActiveIsGood(subs: Subscriptions, b: Ledger, p: TopicPartition, i: nat)
    requires Reassignable(subs, b, p) && forall m :: subs.Allows(m, p) ==> m in b.current
    requires i < |SortMembers(b.current)| && subs.Allows(SortMembers(b.current)[i], p)
    requires forall j :: 0 <= j < i ==> !subs.Allows(SortMembers(b.current)[j], p)
    ensures GoodTaker(subs, b, p, SortMembers(b.current)[i])
  {
    FirstAllowedIsLeast(subs, b.current, p, SortMembers(b.current), i);
  }

  // ------------------------------------------------------------------- isBalanced

  /** The verdict of isBalanced; its look-ups of rival owners never miss. */
  method IsBalanced(current: Assignments, subs: Subscriptions, ghost owner: Owners) returns (balanced: bool)
    requires subs.Valid() && Agree(subs, current, owner) && Complete(subs, owner) && SetAsideUnshared(subs, current)
    ensures balanced <==> Balanced(subs, current, owner)
  {
    if current == map[] {
      return true;
    }
    var members := SortMembers(current);
    var least := |current[members[0]]|;
    var most := |current[members[|members| - 1]]|;
    if least >= most - 1 {
      EvenIsBalanced(subs, current, owner, members);
      return true;
    }
    var allPartitions := OwnersByList(current, subs, owner);
    for i := 0 to |members|
      invariant forall k :: 0 <= k < i ==> !HasHeavierRival(subs, current, owner, members[k])
    {
      var heavier := FindHeavierRival(members[i], current, subs, allPartitions, owner);
      if heavier {
        UnevenIsUnbalanced(subs, current, owner, members, i);
        return false;
      }
    }
    NoRivalsIsBalanced(subs, current, owner, members);
    return true;
  }

  /** Some partition m may own belongs to a member with a heavier load. */
  ghost predicate HasHeavierRival(subs: Subscriptions, current: Assignments, owner: Owners, m: MemberId) {
    exists p :: subs.Allows(m, p) && p in owner && Load(current, m) < Load(current, owner[p])
  }

  method FindHeavierRival(m: MemberId, current: Assignments, subs: Subscriptions, allPartitions: Owners,
                          ghost owner: Owners)
    returns (heavier: bool)
    requires subs.Valid() && Agree(subs, current, owner) && Complete(subs, owner) && SetAsideUnshared(subs, current)
    requires m in current
    requires forall p :: p in owner && owner[p] in current ==> p in allPartitions && allPartitions[p] == owner[p]
    ensures heavier <==> HasHeavierRival(subs, current, owner, m)
  {
    if |current[m]| == |subs.ofMember[m]| {
      HoldsAll(m, current, owner, subs);
      return false;
    }
    var potential := subs.ofMember[m];
    for j := 0 to |potential|
      invariant forall k :: 0 <= k < j && potential[k] in owner ==>
                              Load(current, owner[potential[k]]) <= Load(current, m)
    {
      assert subs.Allows(m, potential[j]) && potential[j] in owner;
      if !Contains(current[m], potential[j]) {
        TwoOwnersShared(subs, potential[j], m, owner[potential[j]]);
        var otherConsumer := allPartitions[potential[j]];
        if |current[m]| < |current[otherConsumer]| {
          return true;
        }
      }
    }
    forall p | subs.Allows(m, p) && p in owner ensures Load(current, owner[p]) <= Load(current, m) {
      var k :| 0 <= k < |potential| && potential[k] == p;
    }
    return false;
  }

  lemma EvenIsBalanced(subs: Subscriptions, current: Assignments, owner: Owners, members: seq<MemberId>)
    requires forall m :: m in current ==> m in members
    requires forall j, k :: 0 <= j < k < |members| ==> Load(current, members[j]) <= Load(current, members[k])
    requires members != [] && Load(current, members[0]) >= Load(current, members[|members| - 1]) - 1
    ensures Balanced(subs, current, owner)
  {
    forall m, n | m in current && n in current ensures Load(current, m) <= Load(current, n) + 1 {
      var i :| 0 <= i < |members| && members[i] == m;
      var j :| 0 <= j < |members| && members[j] == n;
    }
  }

  lemma UnevenIsUnbalanced(subs: Subscriptions, current: Assignments, owner: Owners, members: seq<MemberId>, i: nat)
    requires forall m :: m in members ==> m in current
    requires i < |members| && Load(current, members[0]) < Load(current, members[|members| - 1]) - 1
    requires HasHeavierRival(subs, current, owner, members[i])
    ensures !Balanced(subs, current, owner)
  {
    assert members[0] in current && members[|members| - 1] in current && members[i] in current;
  }

  lemma NoRivalsIsBalanced(subs: Subscriptions, current: Assignments, owner: Owners, members: seq<MemberId>)
    requires forall m :: m in current ==> m in members
    requires forall k :: 0 <= k < |members| ==> !HasHeavierRival(subs, current, owner, members[k])
    ensures Balanced(subs, current, owner)
  {
    forall m, p | m in current && subs.Allows(m, p) && p in owner ensures Load(current, owner[p]) <= Load(current, m) {
      var k :| 0 <= k < |members| && members[k] == m;
    }
  }

  /** The reverse map isBalanced builds from the members' lists is the owner map of active members. */
  method OwnersByList(current: Assignments, subs: Subscriptions, ghost owner: Owners) returns (all: Owners)
    requires Agree(subs, current, owner)
    ensures forall p :: p in all <==> p in owner && owner[p] in current
    ensures forall p :: p in all ==> all[p] == owner[p]
  {
    hide *;
    var members := SortedIds(current.Keys);
    all := map[];
    ghost var done: set<MemberId> := {};
    for i := 0 to |members|
      invariant done <= current.Keys && forall k :: 0 <= k < i ==> members[k] in done
      invariant forall p :: p in all <==> p in owner && owner[p] in done
      invariant forall p :: p in all ==> all[p] == owner[p]
    {
      var m, partitions := members[i], current[members[i]];
      all := Recorded(all, partitions, m);
      ListIsOwned(subs, current, owner, m);
      done := done + {m};
    }
    assert done == current.Keys by {
      forall m | m in current ensures m in done {
        var k :| 0 <= k < |members| && members[k] == m;
      }
    }
  }

  lemma ListIsOwned(subs: Subscriptions, current: Assignments, owner: Owners, m: MemberId)
    requires Agree(subs, current, owner) && m in current
    ensures forall p :: p in current[m] <==> p in owner && owner[p] == m
  {
  }

  method Recorded(all: Owners, partitions: seq<TopicPartition>, m: MemberId) returns (after: Owners)
    ensures forall p :: p in after <==> p in all || p in partitions
    ensures forall p :: p in after ==> after[p] == if p in partitions then m else all[p]
  {
    after := all;
    for j := 0 to |partitions|
      invariant forall p :: p in after <==> p in all || p in partitions[..j]
      invariant forall p :: p in after ==> after[p] == if p in partitions[..j] then m else all[p]
    {
      assert partitions[..j + 1] == partitions[..j] + [partitions[j]];
      after := after[partitions[j] := m];
    }
    assert partitions[..|partitions|] == partitions;
  }
}
