/** The assignor's working state as a value, one reassignment as a function on it, and what every
    reassignment keeps. The class in Sticky.dfy is proved against these functions. */
module Assignment {
  import opened Order
  import opened Movements

  type Assignments = map<MemberId, seq<TopicPartition>>

  /** Who may own what, both ways round: the two potential-ownership maps built by Plan. */
  datatype Subscriptions = Subscriptions(ofMember: map<MemberId, seq<TopicPartition>>,
                                         ofPartition: map<TopicPartition, seq<MemberId>>)
  {
    ghost predicate Valid() {
      && (forall m, p :: m in ofMember && p in ofMember[m] ==> p in ofPartition && m in ofPartition[p])
      && (forall m, p :: p in ofPartition && m in ofPartition[p] ==> m in ofMember && p in ofMember[m])
    }

    /** m may own p. */
    predicate Allows(m: MemberId, p: TopicPartition) {
      p in ofPartition && m in ofPartition[p]
    }

    /** At least two members may own p. */
    predicate Shared(p: TopicPartition) {
      p in ofPartition && |ofPartition[p]| >= 2
    }
  }

  /** The load operator[] reports: an absent member has none. */
  function Load(current: Assignments, m: MemberId): nat {
    if m in current then |current[m]| else 0
  }

  // ------------------------------------------------------------- member order

  function ByLoad(current: Assignments): (MemberId, MemberId) -> bool {
    (a, b) => if Load(current, a) == Load(current, b) then MemberLe(a, b) else Load(current, a) < Load(current, b)
  }

  lemma ByLoadOrder(current: Assignments)
    ensures TotalOrder(ByLoad(current))
  {
    StringOrder();
  }

  /** The members, least loaded first, ties by id. */
  function SortMembers(current: Assignments): (r: seq<MemberId>)
    ensures forall m :: m in r <==> m in current
    ensures forall i, j :: 0 <= i < j < |r| ==> Load(current, r[i]) <= Load(current, r[j])
  {
    ByLoadOrder(current);
    Sorted(current.Keys, ByLoad(current))
  }

  lemma SortMembersSorted(current: Assignments)
    ensures NoDup(SortMembers(current)) && SortedBy(SortMembers(current), ByLoad(current))
  {
    ByLoadOrder(current);
  }

  /** Ties included, there is no other list the source could have sorted its members into. */
  lemma SortMembersUnique(current: Assignments, s: seq<MemberId>)
    requires NoDup(s) && SortedBy(s, ByLoad(current)) && forall m :: m in s <==> m in current
    ensures s == SortMembers(current)
  {
    ByLoadOrder(current);
    SortedUnique(s, SortMembers(current), ByLoad(current));
  }

  /** Fewer partitions first, ties by name. */
  lemma SortMembersOrder(current: Assignments)
    ensures var r := SortMembers(current);
            forall i, j :: 0 <= i < j < |r| ==>
              && r[i] in current && r[j] in current && |current[r[i]]| <= |current[r[j]]|
              && (|current[r[i]]| == |current[r[j]]| ==> ComesBefore(r[i].id, r[j].id))
  {
    var r := SortMembers(current);
    SortMembersSorted(current);
    hide SortMembers, ComesBefore;
    forall i, j | 0 <= i < j < |r|
      ensures r[i] in current && r[j] in current && |current[r[i]]| <= |current[r[j]]|
      ensures |current[r[i]]| == |current[r[j]]| ==> ComesBefore(r[i].id, r[j].id)
    {
      assert r[i] in r && r[j] in r && ByLoad(current)(r[i], r[j]);
      StringLeMeans(r[i].id, r[j].id);
    }
  }

  // --------------------------------------------------------- moving one partition

  function RemoveFirst(s: seq<TopicPartition>, p: TopicPartition): (r: seq<TopicPartition>)
    ensures p !in s ==> r == s
    ensures p in s ==> |r| == |s| - 1
    ensures NoDup(s) ==> NoDup(r) && forall q :: q in r <==> q in s && q != p
  {
    if s == [] then []
    else
      assert s == [s[0]] + s[1..];
      if s[0] == p then s[1..]
      else
        var rest := RemoveFirst(s[1..], p);
        assert NoDup(s) ==> NoDup(s[1..]) && s[0] !in s[1..] && s[0] !in rest;
        [s[0]] + rest
  }

  lemma HandedKeys(current: Assignments, p: TopicPartition, giver: MemberId, taker: MemberId)
    requires giver in current && taker in current
    ensures Handed(current, p, giver, taker).Keys == current.Keys
  {
  }

  datatype Ledger = Ledger(current: Assignments, owner: Owners, record: Record)

  function Handed(current: Assignments, p: TopicPartition, giver: MemberId, taker: MemberId): Assignments
    requires giver in current && taker in current
  {
    var given := current[giver := RemoveFirst(current[giver], p)];
    given[taker := given[taker] + [p]]
  }

  function Process(b: Ledger, p: TopicPartition, taker: MemberId): Ledger
    requires p in b.owner && b.owner[p] in b.current && taker in b.current
  {
    Ledger(Handed(b.current, p, b.owner[p], taker), b.owner[p := taker], Moved(b.record, p, b.owner[p], taker))
  }

  // ------------------------------------------------------------------ invariants

  /** The owner map and the members' lists say the same about every active member, and every owner
      is allowed. A member outside `current` has been set aside. */
  ghost predicate Agree(subs: Subscriptions, current: Assignments, owner: Owners) {
    && (forall p :: p in owner ==> subs.Allows(owner[p], p))
    && (forall m :: m in current ==> m in subs.ofMember && NoDup(current[m]))
    && (forall m, p :: m in current ==> (p in current[m] <==> p in owner && owner[p] == m))
  }

  /** Every partition somebody may own has an owner. */
  ghost predicate Complete(subs: Subscriptions, owner: Owners) {
    forall p :: p in subs.ofPartition && subs.ofPartition[p] != [] ==> p in owner
  }

  /** A member that has been set aside has no shared partition among those it may own. */
  ghost predicate SetAsideUnshared(subs: Subscriptions, current: Assignments) {
    forall m, p {:trigger m in current, subs.Shared(p)} :: m !in current && subs.Allows(m, p) ==> !subs.Shared(p)
  }

  ghost predicate Inv(subs: Subscriptions, start: Owners, b: Ledger) {
    && subs.Valid()
    && Agree(subs, b.current, b.owner)
    && Complete(subs, b.owner)
    && SetAsideUnshared(subs, b.current)
    && start.Keys == b.owner.Keys
    && (forall p :: p in start ==> subs.Allows(start[p], p))
    && b.record == Difference(start, b.owner)
    && NoOpposites(b.record)
  }

  /** The partition a wanted reassignment of p really moves, and what the move does. */
  ghost predicate Movable(subs: Subscriptions, b: Ledger, p: TopicPartition, taker: MemberId) {
    p in b.owner && subs.Allows(taker, p) && taker != b.owner[p]
  }

  function Chosen(b: Ledger, p: TopicPartition, taker: MemberId): TopicPartition
    requires p in b.owner
  {
    ActualPartition(b.record, p, b.owner[p], taker)
  }

  lemma TwoOwnersShared(subs: Subscriptions, p: TopicPartition, m: MemberId, n: MemberId)
    requires subs.Allows(m, p) && subs.Allows(n, p) && m != n
    ensures subs.Shared(p)
  {
  }

  /** What a redirection can pick: p itself, or a partition that goes home to the taker from p's
      origin. Either way the taker may own it, its present owner is active, and so is the taker. */
  lemma ChosenIsMovable(subs: Subscriptions, start: Owners, b: Ledger, p: TopicPartition, taker: MemberId)
    requires Inv(subs, start, b) && Movable(subs, b, p, taker)
    ensures var q := Chosen(b, p, taker);
            && q in b.owner && subs.Allows(taker, q) && subs.Shared(q) && b.owner[q] != taker
            && b.owner[q] in b.current && taker in b.current
            && (q != p ==> q in b.record && start[q] == taker && b.owner[q] == start[p])
  {
    var q := Chosen(b, p, taker);
    if Reversals(b.record, p, b.owner[p], taker) != {} {
      assert start[q] == taker && b.owner[q] == start[p];
    }
    TwoOwnersShared(subs, q, b.owner[q], taker);
  }

  function Reassign(subs: Subscriptions, start: Owners, b: Ledger, p: TopicPartition, taker: MemberId): Ledger
    requires Inv(subs, start, b) && Movable(subs, b, p, taker)
  {
    ChosenIsMovable(subs, start, b, p, taker);
    Process(b, Chosen(b, p, taker), taker)
  }

  lemma HandedAgrees(subs: Subscriptions, current: Assignments, owner: Owners, q: TopicPartition, taker: MemberId)
    requires Agree(subs, current, owner)
    requires q in owner && owner[q] in current && taker in current && owner[q] != taker && subs.Allows(taker, q)
    ensures Agree(subs, Handed(current, q, owner[q], taker), owner[q := taker])
  {
    var after := Handed(current, q, owner[q], taker);
    assert q in current[owner[q]] && q !in current[taker];
    forall m | m in after ensures NoDup(after[m]) {
      if m == taker {
        assert after[m] == current[m] + [q];
        assert forall i :: 0 <= i < |current[m]| ==> current[m][i] in current[m];
      }
    }
  }

  /** Only the members' names and the owned partitions matter for who is set aside and what is owned. */
  lemma FrameKept(subs: Subscriptions, a: Assignments, b: Assignments, before: Owners, after: Owners)
    requires a.Keys == b.Keys && before.Keys == after.Keys
    requires SetAsideUnshared(subs, a) && Complete(subs, before)
    ensures SetAsideUnshared(subs, b) && Complete(subs, after)
  {
    forall m, p | m !in b && subs.Allows(m, p) ensures !subs.Shared(p) {
      assert m !in a;
    }
  }

  /** Every reassignment, redirected or not, keeps the whole invariant: the two ownership maps agree,
      nobody set aside is touched, the record is the ownership difference and holds no opposites. */
  lemma ReassignKeepsInv(subs: Subscriptions, start: Owners, b: Ledger, p: TopicPartition, taker: MemberId)
    requires Inv(subs, start, b) && Movable(subs, b, p, taker)
    ensures Inv(subs, start, Reassign(subs, start, b, p, taker))
  {
    hide NoOpposites, Agree, SetAsideUnshared, Complete, Difference, Subscriptions.Valid, Moved, Handed;
    var q := Chosen(b, p, taker);
    ChosenIsMovable(subs, start, b, p, taker);
    var after := Process(b, q, taker);
    assert after.current.Keys == b.current.Keys by {
      HandedKeys(b.current, q, b.owner[q], taker);
    }
    assert Agree(subs, after.current, after.owner) by {
      HandedAgrees(subs, b.current, b.owner, q, taker);
    }
    assert after.record == Difference(start, after.owner) && NoOpposites(after.record) by {
      MovedIsDifference(start, b.owner, q, taker);
      MovedKeepsNoOpposites(start, b.owner, p, taker);
    }
    FrameKept(subs, b.current, after.current, b.owner, after.owner);
  }

  // ------------------------------------------------------------------- the potential

  function Square(n: int): int { n * n }

  lemma SquareStep(n: int)
    ensures Square(n + 1) == Square(n) + 2 * n + 1
  {
  }

  /** Sum of the squared loads of the members in `ms`. */
  ghost function SumSquares(current: Assignments, ms: set<MemberId>): int {
    if ms == {} then 0
    else
      var m :| m in ms;
      Square(Load(current, m)) + SumSquares(current, ms - {m})
  }

  lemma {:induction false} SumSquaresSplit(current: Assignments, ms: set<MemberId>, m: MemberId)
    requires m in ms
    ensures SumSquares(current, ms) == Square(Load(current, m)) + SumSquares(current, ms - {m})
  {
    var k :| k in ms && SumSquares(current, ms) == Square(Load(current, k)) + SumSquares(current, ms - {k});
    if k != m {
      SumSquaresSplit(current, ms - {k}, m);
      SumSquaresSplit(current, ms - {m}, k);
      assert ms - {k} - {m} == ms - {m} - {k};
    }
  }

  lemma {:induction false} SumSquaresFrame(a: Assignments, b: Assignments, ms: set<MemberId>)
    requires forall m :: m in ms ==> Load(a, m) == Load(b, m)
    ensures SumSquares(a, ms) == SumSquares(b, ms)
  {
    if ms != {} {
      var m :| m in ms;
      SumSquaresSplit(a, ms, m);
      SumSquaresSplit(b, ms, m);
      SumSquaresFrame(a, b, ms - {m});
    }
  }

  /** One partition handed from a member with load x to one with load y adds 2(y - x) + 2. */
  lemma HandedSquares(current: Assignments, p: TopicPartition, giver: MemberId, taker: MemberId)
    requires giver in current && taker in current && giver != taker && p in current[giver]
    ensures SumSquares(Handed(current, p, giver, taker), current.Keys)
         == SumSquares(current, current.Keys) + 2 * (|current[taker]| - |current[giver]|) + 2
  {
    var after := Handed(current, p, giver, taker);
    var rest := current.Keys - {giver} - {taker};
    SumSquaresSplit(current, current.Keys, giver);
    SumSquaresSplit(current, current.Keys - {giver}, taker);
    SumSquaresSplit(after, current.Keys, giver);
    SumSquaresSplit(after, current.Keys - {giver}, taker);
    SumSquaresFrame(current, after, rest);
    var x, y := |current[giver]|, |current[taker]|;
    assert Load(after, giver) == x - 1 && Load(after, taker) == y + 1;
    SquareStep(x - 1);
    SquareStep(y);
  }

  ghost function Squares(b: Ledger): int {
    SumSquares(b.current, b.current.Keys)
  }

  /** Squared imbalance plus twice the number of recorded movements. */
  ghost function Potential(b: Ledger): int {
    Squares(b) + 2 * |b.record|
  }

  /** The taker performReassignments picks: a least loaded member allowed to own p, lighter than the
      present owner by at least two. */
  ghost predicate GoodTaker(subs: Subscriptions, b: Ledger, p: TopicPartition, taker: MemberId) {
    && Movable(subs, b, p, taker)
    && Load(b.current, b.owner[p]) > Load(b.current, taker) + 1
    && forall m :: subs.Allows(m, p) ==> Load(b.current, taker) <= Load(b.current, m)
  }

  /** The arithmetic of one move: a direct one takes at least 2 off the squares and may open a
      movement; a redirected one may add 2 to the squares, but it closes a movement. */
  lemma ProcessPotential(b: Ledger, q: TopicPartition, taker: MemberId)
    requires q in b.owner && b.owner[q] in b.current && taker in b.current && b.owner[q] != taker
    requires q in b.current[b.owner[q]]
    requires || Load(b.current, b.owner[q]) > Load(b.current, taker) + 1
             || (q in b.record && b.record[q].src == taker && Load(b.current, taker) <= Load(b.current, b.owner[q]))
    ensures Potential(Process(b, q, taker)) <= Potential(b)
    ensures Load(b.current, b.owner[q]) > Load(b.current, taker) + 1 ==> Squares(Process(b, q, taker)) <= Squares(b) - 2
    ensures q in b.record && b.record[q].src == taker ==> |Process(b, q, taker).record| == |b.record| - 1
  {
    HandedSquares(b.current, q, b.owner[q], taker);
    var after := Process(b, q, taker);
    assert after.current.Keys == b.current.Keys;
    MovedSize(b.record, q, b.owner[q], taker);
  }

  /** No chosen move raises the potential, even when the record redirects it to another partition
      and another giver. A direct move takes at least 2 off the squares, a redirected one closes a
      recorded movement. */
  lemma ReassignKeepsPotential(subs: Subscriptions, start: Owners, b: Ledger, p: TopicPartition, taker: MemberId)
    requires Inv(subs, start, b) && GoodTaker(subs, b, p, taker)
    ensures Potential(Reassign(subs, start, b, p, taker)) <= Potential(b)
    ensures Chosen(b, p, taker) == p ==> Squares(Reassign(subs, start, b, p, taker)) <= Squares(b) - 2
    ensures Chosen(b, p, taker) != p ==> |Reassign(subs, start, b, p, taker).record| == |b.record| - 1
  {
    var q := Chosen(b, p, taker);
    ChosenIsMovable(subs, start, b, p, taker);
    assert q in b.current[b.owner[q]];
    if q != p {
      assert subs.Allows(start[p], p);
    }
    ProcessPotential(b, q, taker);
  }

  lemma MovedSize(record: Record, p: TopicPartition, owner: MemberId, target: MemberId)
    ensures |Moved(record, p, owner, target)| <= |record| + 1
    ensures p in record && record[p].src == target ==> |Moved(record, p, owner, target)| == |record| - 1
  {
    var after := Moved(record, p, owner, target);
    if p in record {
      assert record.Keys == (record.Keys - {p}) + {p};
      SubsetSize(after.Keys, record.Keys);
    } else {
      assert after.Keys == record.Keys + {p};
    }
  }

  // --------------------------------------------------------------- local optimality

  /** No shared partition with a named owner can be moved to a member lighter by two or more. */
  ghost predicate LocallyOptimal(subs: Subscriptions, current: Assignments, owner: Owners) {
    forall p, m :: subs.Shared(p) && p in owner && owner[p] != MemberId("") && subs.Allows(m, p) ==>
      Load(current, owner[p]) <= Load(current, m) + 1
  }

  /** What isBalanced decides. */
  ghost predicate Balanced(subs: Subscriptions, current: Assignments, owner: Owners) {
    || (forall m, n :: m in current && n in current ==> Load(current, m) <= Load(current, n) + 1)
    || (forall m, p :: m in current && subs.Allows(m, p) && p in owner ==>
          Load(current, owner[p]) <= Load(current, m))
  }

  lemma BalancedIsOptimal(subs: Subscriptions, start: Owners, b: Ledger)
    requires Inv(subs, start, b) && Balanced(subs, b.current, b.owner)
    ensures LocallyOptimal(subs, b.current, b.owner)
  {
  }
}
